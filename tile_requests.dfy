/** The vocabulary shared by both copies of the tile handler `handleMandelbrot`:
    the parsed path parameters, the renderer's outcome, the HTTP response, and
    the ordered list of checks a request must pass. */
module TileRequests {
  import opened Tiles

  /** The outcome of strconv.Atoi on one path segment. */
  datatype Param = Parsed(value: int) | Unparsable

  /** The outcome of processInput: the PNG bytes it buffered, or its error. */
  datatype Encoded = Encoded(png: seq<bv8>) | EncodeError

  /** What the handler sends: an http.Error status and message, or the image
      with its Content-Type header. */
  datatype Response = Error(status: int, message: string) | Image(contentType: string, body: seq<bv8>)

  const StatusBadRequest := 400
  const StatusInternalServerError := 500

  /** Every tile is rendered at 256 x 256 pixels. */
  const TileSize: nat := 256

  const PngContentType := "image/png"

  const InvalidZ := "Invalid z parameter"
  const ZOutOfRange := "z parameter must be between 0 and 24"
  const InvalidX := "Invalid x parameter"
  const XOutOfRange := "x parameter must be within range for zoom level"
  const InvalidY := "Invalid y parameter"
  const YOutOfRange := "y parameter must be within range for zoom level"
  const RenderFailed := "Error generating image"

  predicate ZoomInRange(z: int) {
    0 <= z <= MaxZoom
  }

  /** 0 <= k < maxCoord, where maxCoord = 1 << z. */
  predicate CoordInRange(z: nat, k: int) {
    0 <= k < Pow2(z)
  }

  /** A request the handler accepts: three parsed integers naming a tile of
      zoom 0..24 whose column and row exist at that zoom. */
  predicate ValidTile(zp: Param, xp: Param, yp: Param) {
    && zp.Parsed? && ZoomInRange(zp.value)
    && xp.Parsed? && CoordInRange(zp.value, xp.value)
    && yp.Parsed? && CoordInRange(zp.value, yp.value)
  }

  /** One guard of the handler: whether the request passes it, and the 400
      message sent when it is the first one failed. */
  datatype Check = Check(passes: bool, message: string)

  /** The guards of the handler, in the order it runs them. A guard that
      needs an earlier value (the range of x needs z) passes vacuously when
      that value is missing, since an earlier guard has then already failed. */
  function Checks(zp: Param, xp: Param, yp: Param): (cs: seq<Check>)
    ensures |cs| == 6
    ensures (forall k :: 0 <= k < |cs| ==> cs[k].passes) <==> ValidTile(zp, xp, yp)
  {
    var zOk := zp.Parsed? && ZoomInRange(zp.value);
    var cs := [
      Check(zp.Parsed?, InvalidZ),
      Check(!zp.Parsed? || ZoomInRange(zp.value), ZOutOfRange),
      Check(xp.Parsed?, InvalidX),
      Check(!(zOk && xp.Parsed?) || CoordInRange(zp.value, xp.value), XOutOfRange),
      Check(yp.Parsed?, InvalidY),
      Check(!(zOk && yp.Parsed?) || CoordInRange(zp.value, yp.value), YOutOfRange) ];
    assert (forall k :: 0 <= k < |cs| ==> cs[k].passes) ==>
      cs[0].passes && cs[1].passes && cs[2].passes && cs[3].passes && cs[4].passes && cs[5].passes;
    cs
  }

  /** The position of the first guard in cs that fails, or |cs| when all pass. */
  function FirstFailing(cs: seq<Check>): (k: nat)
    ensures k <= |cs|
    ensures forall j :: 0 <= j < k ==> cs[j].passes
    ensures k < |cs| ==> !cs[k].passes
  {
    if cs == [] || !cs[0].passes then 0
    else
      var k := FirstFailing(cs[1..]);
      assert forall j :: 0 < j < k + 1 ==> cs[j] == cs[1..][j - 1];
      k + 1
  }

  /** A failing guard preceded only by passing ones is the first failing one. */
  lemma FirstFailingIsUnique(cs: seq<Check>, k: nat)
    requires k < |cs| && !cs[k].passes
    requires forall j :: 0 <= j < k ==> cs[j].passes
    ensures FirstFailing(cs) == k
  {
  }
}
