/** handleMandelbrot of server.go: parse and check z, x and y in that order,
    answering 400 at the first failed check; map the tile to its rectangle;
    render it at 256 x 256; answer 500 if rendering fails and the PNG
    otherwise. The renderer (processInput) is a parameter, and so are the
    outcomes of strconv.Atoi on the three path segments. */
module Server {
  import opened Tiles
  import opened TileRequests

  /** The handler's decision before rendering: an http.Error, or the
      rectangle and size processInput is called with. */
  datatype Decision = Reject(status: int, message: string) | Render(rect: Rect, width: nat, height: nat)

  /** The guard chain of handleMandelbrot: a request is rendered exactly when
      it names a valid tile, at the tile's own rectangle and at 256 x 256;
      any other request is rejected with 400. */
  function Decide(zp: Param, xp: Param, yp: Param): (d: Decision)
    ensures d.Render? <==> ValidTile(zp, xp, yp)
    ensures d.Reject? ==> d.status == StatusBadRequest
    ensures d.Render? ==>
      && d.rect == SlippyToMandelbrot(zp.value, xp.value, yp.value)
      && d.width == TileSize && d.height == TileSize
  {
    if zp.Unparsable? then
      Reject(StatusBadRequest, InvalidZ)
    else if zp.value < 0 || zp.value > MaxZoom then
      Reject(StatusBadRequest, ZOutOfRange)
    else if xp.Unparsable? then
      Reject(StatusBadRequest, InvalidX)
    else if xp.value < 0 || xp.value >= Pow2(zp.value) then
      Reject(StatusBadRequest, XOutOfRange)
    else if yp.Unparsable? then
      Reject(StatusBadRequest, InvalidY)
    else if yp.value < 0 || yp.value >= Pow2(zp.value) then
      Reject(StatusBadRequest, YOutOfRange)
    else
      Render(SlippyToMandelbrot(zp.value, xp.value, yp.value), TileSize, TileSize)
  }

  /** The 400 message is the message of the first check, in handler order,
      that the request fails. */
  lemma RejectionNamesFirstFailedCheck(zp: Param, xp: Param, yp: Param)
    ensures var d := Decide(zp, xp, yp); var cs := Checks(zp, xp, yp);
      d.Reject? ==> d.message == cs[FirstFailing(cs)].message
  {
    var cs := Checks(zp, xp, yp);
    var d := Decide(zp, xp, yp);
    if d.Reject? {
      var k := if zp.Unparsable? then 0
        else if !ZoomInRange(zp.value) then 1
        else if xp.Unparsable? then 2
        else if !CoordInRange(zp.value, xp.value) then 3
        else if yp.Unparsable? then 4
        else 5;
      assert forall j :: 0 <= j < k ==> cs[j].passes;
      assert !cs[k].passes && d.message == cs[k].message;
      FirstFailingIsUnique(cs, k);
    }
  }

  /** Carry out a decision: a rejection is sent as is; a render request
      calls the renderer and sends 500 on its error, or the PNG bytes with
      Content-Type image/png. */
  function Respond(d: Decision, render: (Rect, nat, nat) -> Encoded): (r: Response)
    ensures d.Reject? ==> r == Error(d.status, d.message)
    ensures d.Render? && render(d.rect, d.width, d.height).EncodeError? ==>
      r == Error(StatusInternalServerError, RenderFailed)
    ensures d.Render? && render(d.rect, d.width, d.height).Encoded? ==>
      r == Image(PngContentType, render(d.rect, d.width, d.height).png)
  {
    match d
    case Reject(status, message) => Error(status, message)
    case Render(rect, width, height) =>
      var img := render(rect, width, height);
      if img.EncodeError? then Error(StatusInternalServerError, RenderFailed)
      else Image(PngContentType, img.png)
  }

  /** handleMandelbrot: the response to GET /mandelbrot/{z}/{x}/{y}. */
  function HandleMandelbrot(zp: Param, xp: Param, yp: Param, render: (Rect, nat, nat) -> Encoded): (r: Response)
    ensures r.Error? && r.status == StatusBadRequest <==> !ValidTile(zp, xp, yp)
    ensures !ValidTile(zp, xp, yp) ==>
      var cs := Checks(zp, xp, yp); r.message == cs[FirstFailing(cs)].message
    ensures ValidTile(zp, xp, yp) ==>
      var img := render(SlippyToMandelbrot(zp.value, xp.value, yp.value), TileSize, TileSize);
      && (img.EncodeError? ==> r == Error(StatusInternalServerError, RenderFailed))
      && (img.Encoded? ==> r == Image(PngContentType, img.png))
  {
    RejectionNamesFirstFailedCheck(zp, xp, yp);
    Respond(Decide(zp, xp, yp), render)
  }

  /** The first failed check alone decides: once z is rejected, neither x,
      y nor the renderer affect the response. */
  lemma ZoomRejectionIgnoresRest(zp: Param, xp: Param, yp: Param, xp': Param, yp': Param,
                                 render: (Rect, nat, nat) -> Encoded, render': (Rect, nat, nat) -> Encoded)
    requires !(zp.Parsed? && ZoomInRange(zp.value))
    ensures HandleMandelbrot(zp, xp, yp, render) == HandleMandelbrot(zp, xp', yp', render')
    ensures HandleMandelbrot(zp, xp, yp, render) ==
      Error(StatusBadRequest, if zp.Unparsable? then InvalidZ else ZOutOfRange)
  {
  }

  /** Once z is accepted and x rejected, neither y nor the renderer affect
      the response. */
  lemma ColumnRejectionIgnoresRest(zp: Param, xp: Param, yp: Param, yp': Param,
                                   render: (Rect, nat, nat) -> Encoded, render': (Rect, nat, nat) -> Encoded)
    requires zp.Parsed? && ZoomInRange(zp.value)
    requires !(xp.Parsed? && CoordInRange(zp.value, xp.value))
    ensures HandleMandelbrot(zp, xp, yp, render) == HandleMandelbrot(zp, xp, yp', render')
    ensures HandleMandelbrot(zp, xp, yp, render) ==
      Error(StatusBadRequest, if xp.Unparsable? then InvalidX else XOutOfRange)
  {
  }

  /** Once z and x are accepted and y rejected, the renderer is not called. */
  lemma RowRejectionIgnoresRenderer(zp: Param, xp: Param, yp: Param,
                                    render: (Rect, nat, nat) -> Encoded, render': (Rect, nat, nat) -> Encoded)
    requires zp.Parsed? && ZoomInRange(zp.value)
    requires xp.Parsed? && CoordInRange(zp.value, xp.value)
    requires !(yp.Parsed? && CoordInRange(zp.value, yp.value))
    ensures HandleMandelbrot(zp, xp, yp, render) == HandleMandelbrot(zp, xp, yp, render')
    ensures HandleMandelbrot(zp, xp, yp, render) ==
      Error(StatusBadRequest, if yp.Unparsable? then InvalidY else YOutOfRange)
  {
  }

  /** An accepted tile is a square of side 4 / 2^z inside [-2, 2] x [-2, 2],
      so the renderer is never handed an empty or inverted rectangle. */
  lemma RenderedRectangleInPlane(zp: Param, xp: Param, yp: Param)
    requires ValidTile(zp, xp, yp)
    ensures var d := Decide(zp, xp, yp);
      && d.Render?
      && -2.0 <= d.rect.xmin < d.rect.xmax <= 2.0
      && -2.0 <= d.rect.ymin < d.rect.ymax <= 2.0
      && d.rect.xmax - d.rect.xmin == d.rect.ymax - d.rect.ymin == 4.0 / Pow2(zp.value) as real
  {
  }

  /** Pinned responses. */
  lemma LiteralRequests(render: (Rect, nat, nat) -> Encoded)
    ensures HandleMandelbrot(Parsed(25), Parsed(0), Parsed(0), render) == Error(400, ZOutOfRange)
    ensures HandleMandelbrot(Parsed(-1), Unparsable, Unparsable, render) == Error(400, ZOutOfRange)
    ensures HandleMandelbrot(Parsed(1), Parsed(2), Parsed(0), render) == Error(400, XOutOfRange)
    ensures HandleMandelbrot(Parsed(1), Parsed(1), Unparsable, render) == Error(400, InvalidY)
    ensures Decide(Parsed(0), Parsed(0), Parsed(0)) == Render(Rect(-2.0, -2.0, 2.0, 2.0), 256, 256)
    ensures Decide(Parsed(2), Parsed(1), Parsed(1)) == Render(Rect(-1.0, -1.0, 0.0, 0.0), 256, 256)
  {
    assert Pow2(1) == 2;
    LiteralTiles();
  }
}
