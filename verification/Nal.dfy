/** Start codes and NAL headers: where the picture begins inside a media packet. */
module Nal {
  import opened Bytes

  /** The searches internal/baichuan/media.go makes: any start code, or one before a valid header. */
  datatype Test = AnyStart | HevcNal | H264Nal | H264AccessUnit

  predicate HevcHeaderValid(b0: byte, b1: byte) {
    var t := b0 / 2 % 64;
    var validType := t <= 9 || 16 <= t <= 21 || 32 <= t <= 40;
    var layerZero := b0 % 2 == 0 && b1 / 8 == 0;
    validType && layerZero && b1 % 8 >= 1
  }

  predicate H264Profile(b: byte) {
    b in {44, 66, 77, 83, 86, 88, 100, 110, 118, 122, 128, 134, 135, 138, 139, 244}
  }

  predicate H264HeaderValid(b: bytes) {
    |b| > 0 && b[0] < 0x80 &&
    var ref, t := b[0] / 32 % 4, b[0] % 32;
    if t == 1 then true
    else if t == 5 || t == 8 then ref != 0
    else if t == 7 then ref != 0 && |b| >= 2 && H264Profile(b[1])
    else if t == 6 || t == 9 then ref == 0
    else false
  }

  predicate H264StartsAccessUnit(b: bytes) {
    H264HeaderValid(b) && b[0] % 32 in {6, 7, 9}
  }

  predicate StartCode(b: bytes, i: nat) {
    i + 4 <= |b| && b[i] == 0 && b[i + 1] == 0 && b[i + 2] == 0 && b[i + 3] == 1
  }

  /** How many bytes a search must see from a start code on. */
  function Need(t: Test): nat {
    match t
    case AnyStart => 4
    case HevcNal => 6
    case _ => 5
  }

  /** b[i..] begins a start code and a header the test accepts. */
  predicate Hit(t: Test, b: bytes, i: nat) {
    i + Need(t) <= |b| && StartCode(b, i) &&
    match t
    case AnyStart => true
    case HevcNal => HevcHeaderValid(b[i + 4], b[i + 5])
    case H264Nal => H264HeaderValid(b[i + 4..])
    case H264AccessUnit => H264StartsAccessUnit(b[i + 4..])
  }

  /** The first hit at or after i, or -1. */
  function FirstHit(t: Test, b: bytes, i: nat): (r: int)
    ensures r == -1 || (i <= r && Hit(t, b, r))
    decreases |b| - i
  {
    if i + Need(t) > |b| then -1
    else if Hit(t, b, i) then i
    else FirstHit(t, b, i + 1)
  }

  /** The first hit is first: nothing before it is one, and -1 means there is none. */
  lemma {:induction false} FirstHitIsFirst(t: Test, b: bytes, i: nat)
    ensures var r := FirstHit(t, b, i); forall j :: i <= j && (r == -1 || j < r) ==> !Hit(t, b, j)
    decreases |b| - i
  {
    if i + Need(t) <= |b| && !Hit(t, b, i) {
      FirstHitIsFirst(t, b, i + 1);
    }
  }

  method Find(t: Test, b: bytes) returns (r: int)
    ensures r == FirstHit(t, b, 0)
  {
    var i := 0;
    while i + Need(t) <= |b|
      invariant FirstHit(t, b, i) == FirstHit(t, b, 0)
    {
      if Hit(t, b, i) {
        return i;
      }
      i := i + 1;
    }
    r := -1;
  }
}
