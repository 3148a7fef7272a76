/** handleMandelbrot of controllers.go: the same guards, in the same order
    and with the same messages, as the handler of server.go. It logs the
    request like server.go does, but lacks the two `log.Printf` calls that
    server.go makes after validation (the tile indices and the rectangle).
    It is written out here as its own chain of guards and then shown to
    answer every request exactly as the server.go handler does. */
module Controllers {
  import opened Tiles
  import opened TileRequests
  import Server

  /** handleMandelbrot: the response to GET /mandelbrot/{z}/{x}/{y}. A
      request is refused with 400 exactly when it does not name a valid
      tile; a valid tile is rendered at 256 x 256 from its own rectangle,
      answered with 500 when rendering fails and with the PNG otherwise. */
  function HandleMandelbrot(zp: Param, xp: Param, yp: Param, render: (Rect, nat, nat) -> Encoded): (r: Response)
    ensures r.Error? && r.status == StatusBadRequest <==> !ValidTile(zp, xp, yp)
    ensures ValidTile(zp, xp, yp) ==>
      var img := render(SlippyToMandelbrot(zp.value, xp.value, yp.value), TileSize, TileSize);
      && (img.EncodeError? ==> r == Error(StatusInternalServerError, RenderFailed))
      && (img.Encoded? ==> r == Image(PngContentType, img.png))
  {
    match zp
    case Unparsable => Error(StatusBadRequest, InvalidZ)
    case Parsed(z) =>
      if z < 0 || z > 24 then Error(StatusBadRequest, ZOutOfRange)
      else
        match xp
        case Unparsable => Error(StatusBadRequest, InvalidX)
        case Parsed(x) =>
          var maxCoord := Pow2(z);
          if x < 0 || x >= maxCoord then Error(StatusBadRequest, XOutOfRange)
          else
            match yp
            case Unparsable => Error(StatusBadRequest, InvalidY)
            case Parsed(y) =>
              if y < 0 || y >= maxCoord then Error(StatusBadRequest, YOutOfRange)
              else
                var img := render(SlippyToMandelbrot(z, x, y), TileSize, TileSize);
                if img.EncodeError? then Error(StatusInternalServerError, RenderFailed)
                else Image(PngContentType, img.png)
  }

  /** The two copies of the handler give the same response to every request
      and every renderer; in particular the 400 message here is also the
      message of the first check the request fails. */
  lemma AgreesWithServer(zp: Param, xp: Param, yp: Param, render: (Rect, nat, nat) -> Encoded)
    ensures HandleMandelbrot(zp, xp, yp, render) == Server.HandleMandelbrot(zp, xp, yp, render)
    ensures !ValidTile(zp, xp, yp) ==>
      var cs := Checks(zp, xp, yp); HandleMandelbrot(zp, xp, yp, render).message == cs[FirstFailing(cs)].message
  {
  }
}
