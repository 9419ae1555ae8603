/**
  The halves of pairs a string holds (surrogateAt, backend/runtime/
  json_string.go), as its code units see them.
*/
module Halves {
  import opened Wtf8
  import opened Wtf8Seams

  // A half at i, if there is one.
  predicate HalfAt(s: bytes, i: nat) { i + 2 < |s| && IsHalf(s[i], s[i + 1], s[i + 2]) }

  function UnitAtHalf(s: bytes, i: nat): rune
    requires HalfAt(s, i)
  {
    Half(s[i], s[i + 1], s[i + 2])
  }

  lemma {:induction false} HalvesFrom(s: bytes, i: nat)
    requires i < |s|
    ensures HalfAt(s, i) <==> HalfAt(s[i..], 0)
    ensures HalfAt(s, i + 3) <==> HalfAt(s[i..], 3)
    ensures HalfAt(s, i) ==> UnitAtHalf(s, i) == UnitAtHalf(s[i..], 0)
    ensures HalfAt(s, i + 3) ==> UnitAtHalf(s, i + 3) == UnitAtHalf(s[i..], 3)
  {
  }

  lemma {:induction false} HalfIsFirst(s: bytes)
    requires HalfAt(s, 0)
    ensures First(s) == Char(UnitAtHalf(s, 0), 3) && Units(s) == [UnitAtHalf(s, 0)] + Units(s[3..])
  {
  }

  lemma {:induction false} LowIsHalf(s: bytes)
    ensures Units(s) != [] && Low(Units(s)[0]) <==> HalfAt(s, 0) && Low(UnitAtHalf(s, 0))
  {
    StartsLowIsFirst(s);
  }

  lemma {:induction false} HalvesAfter(s: bytes)
    requires |s| >= 3
    ensures HalfAt(s, 3) <==> HalfAt(s[3..], 0)
    ensures HalfAt(s, 3) ==> UnitAtHalf(s, 3) == UnitAtHalf(s[3..], 0)
  {
  }

  lemma {:induction false} NotHalf(s: bytes)
    requires s != [] && !HalfAt(s, 0)
    ensures !High(First(s).r) && !Low(First(s).r)
  {
  }
}
