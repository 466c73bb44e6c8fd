/** The face sub-box drawn for every `person` detection (app.py, the loop
    over `person_results[0].boxes`). Detector coordinates are real numbers;
    the program converts them to pixels with Python's `int()`. */
module Annotator {
  import opened Wrappers

  /** A detection as the external detector reports it. */
  datatype Detection = Detection(className: string, x1: real, y1: real, x2: real, y2: real)

  /** A pixel rectangle from corner (x1, y1) to corner (x2, y2). */
  datatype Box = Box(x1: int, y1: int, x2: int, y2: int)

  /** The tracked class. */
  const Person: string := "person"

  /** Share of the detection height covered by the face box, from the top. */
  const FaceShare: real := 0.4

  /** Python `int()` on a float: truncation toward zero. */
  function Trunc(x: real): (n: int)
    ensures 0.0 <= x ==> 0 <= n && n as real <= x < n as real + 1.0
    ensures x < 0.0 ==> n <= 0 && n as real - 1.0 < x <= n as real
  {
    if x >= 0.0 then x.Floor else -((-x).Floor)
  }

  /** The face box of a detection: same horizontal extent, top 40% of the
      height; only persons get one. */
  function FaceBox(d: Detection): (r: Option<Box>)
    ensures r.Some? <==> d.className == Person
    ensures r.Some? ==> r.value.x1 == Trunc(d.x1) && r.value.x2 == Trunc(d.x2) && r.value.y1 == Trunc(d.y1)
    ensures r.Some? ==> r.value.y2 == Trunc(d.y1 + FaceShare * (d.y2 - d.y1))
    ensures r.Some? && 0.0 <= d.y1 <= d.y2 ==> r.value.y1 <= r.value.y2 <= Trunc(d.y2)
    ensures r.Some? && 0.0 <= d.y1 <= d.y2 ==>
              r.value.y2 as real <= d.y1 + FaceShare * (d.y2 - d.y1) < r.value.y2 as real + 1.0
  {
    if d.className == Person then
      var top := d.y1 + (d.y2 - d.y1) * FaceShare;
      Some(Box(Trunc(d.x1), Trunc(d.y1), Trunc(d.x2), Trunc(top)))
    else None
  }

  /** Number of person detections in a frame. */
  function PersonCount(ds: seq<Detection>): nat {
    if |ds| == 0 then 0
    else (if ds[0].className == Person then 1 else 0) + PersonCount(ds[1..])
  }

  /** The face boxes of one frame, one per person. */
  function FaceBoxes(ds: seq<Detection>): (r: seq<Box>)
    ensures |r| == PersonCount(ds) <= |ds|
    ensures forall i :: 0 <= i < |ds| && ds[i].className == Person ==> FaceBox(ds[i]).value in r
    ensures forall b :: b in r ==> exists d :: d in ds && FaceBox(d) == Some(b)
    ensures (forall i :: 0 <= i < |ds| ==> ds[i].className == Person) ==> |r| == |ds|
    ensures (forall i :: 0 <= i < |ds| ==> ds[i].className != Person) ==> r == []
  {
    if |ds| == 0 then []
    else
      var rest := FaceBoxes(ds[1..]);
      match FaceBox(ds[0])
      case Some(b) => [b] + rest
      case None => rest
  }

  /** On pixel-aligned, non-negative boxes the real-number computation agrees
      with the integer reference `y1 + 2 * (y2 - y1) / 5`. */
  lemma IntegerReference(name: string, x1: nat, y1: nat, x2: nat, y2: nat)
    requires y1 <= y2
    ensures FaceBox(Detection(name, x1 as real, y1 as real, x2 as real, y2 as real))
         == if name == Person then Some(Box(x1, y1, x2, y1 + 2 * (y2 - y1) / 5)) else None
  {
    var top := y1 as real + (y2 as real - y1 as real) * FaceShare;
    var q := 2 * (y2 - y1) / 5;
    var m := 2 * (y2 - y1) % 5;
    assert 2 * (y2 - y1) == 5 * q + m;
    assert top == (y1 + q) as real + m as real / 5.0;
    assert Trunc(top) == y1 + q;
  }

  /** A worked example: a 100x100 box at the origin gets the face box
      (0, 0, 100, 40). */
  lemma WorkedExample()
    ensures FaceBox(Detection(Person, 0.0, 0.0, 100.0, 100.0)) == Some(Box(0, 0, 100, 40))
  {
    IntegerReference(Person, 0, 0, 100, 100);
  }
}
