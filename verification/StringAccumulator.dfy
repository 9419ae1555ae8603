/**
  StrAcc (backend/runtime/str_acc.go): what `s += x` appends to. A string here
  is a run of a block of bytes, as Go holds one, so that writing to a block
  would show in every string that shares it.
*/
module StringAccumulator {
  import opened Options
  import opened Sequences
  import opened Wtf8
  import opened Wtf8Seams
  import opened StringBuilder
  import opened Strings

  datatype View = View(block: array<byte>, from: nat, len: nat)

  predicate Fits(v: View) { v.from + v.len <= v.block.Length }

  function Content(v: View): bytes
    requires Fits(v)
    reads v.block
  {
    v.block[v.from..v.from + v.len]
  }

  function Contents(parts: seq<View>): (c: seq<bytes>)
    requires forall i :: 0 <= i < |parts| ==> Fits(parts[i])
    reads set i | 0 <= i < |parts| :: parts[i].block
    ensures |c| == |parts| && forall i :: 0 <= i < |parts| ==> c[i] == Content(parts[i])
  {
    if parts == [] then [] else [Content(parts[0])] + Contents(parts[1..])
  }

  const ACC_MIN := 256

  function TotalLen(parts: seq<View>): nat { if parts == [] then 0 else parts[0].len + TotalLen(parts[1..]) }

  method NewString(c: bytes) returns (v: View)
    ensures fresh(v.block) && Fits(v) && Content(v) == c && v.from == 0 && v.len == v.block.Length == |c|
  {
    var block := new byte[|c|](i requires 0 <= i < |c| => c[i]);
    v := View(block, 0, |c|);
  }

  // make and copy: a new block of some capacity, beginning with n bytes of src.
  method Copied(src: array<byte>, from: nat, n: nat, capacity: nat) returns (a: array<byte>)
    requires from + n <= src.Length && n <= capacity
    ensures fresh(a) && a.Length == capacity && a[..n] == src[from..from + n]
  {
    a := new byte[capacity];
    for i := 0 to n
      modifies a
      invariant a[..i] == src[from..from + i]
    {
      a[i] := src[from + i];
    }
  }

  lemma PartAt(parts: seq<View>, all: seq<bytes>, k: nat)
    requires k < |parts| == |all|
    ensures Flat(all[k..]) == all[k] + Flat(all[k + 1..]) && TotalLen(parts[k..]) == parts[k].len + TotalLen(parts[k + 1..])
  {
    assert all[k..][0] == all[k] && all[k..][1..] == all[k + 1..] && parts[k..][1..] == parts[k + 1..];
  }

  lemma NoParts(parts: seq<View>, all: seq<bytes>)
    requires |parts| == |all|
    ensures Flat(all[|parts|..]) == [] && TotalLen(parts[|parts|..]) == 0
  {
  }

  lemma AsciiAppend(a: bytes, b: bytes)
    requires Ascii(a) && Ascii(b)
    ensures Ascii(a + b)
  {
  }

  // append's copy: p's bytes, from at on.
  method CopyPast(buf: array<byte>, at: nat, p: View)
    requires at + p.len <= buf.Length && Fits(p)
    requires p.block == buf ==> p.from + p.len <= at
    modifies buf
    ensures buf[..at] == old(buf[..at]) && buf[at..at + p.len] == old(Content(p))
  {
    forall i | 0 <= i < p.len { buf[at + i] := p.block[p.from + i]; }
    assert forall i :: 0 <= i < p.len ==> buf[at..at + p.len][i] == old(Content(p))[i];
  }

  class StrAcc {
    var buf: array<byte>      // its block; its Length is the slice's capacity
    var len: nat              // the bytes the newest string covers
    var tip: bool             // whether there is a newest string
    var asc: bool             // whether it is all ASCII

    // Every string handed out, and how many bytes growth has copied since the
    // chain of appends began.
    ghost var handed: set<View>
    ghost var copied: nat

    ghost predicate Valid()
      reads this, buf
    {
      && len <= buf.Length
      && (forall v: View | v in handed :: Fits(v) && (v.block == buf ==> v.from + v.len <= len))
      && (tip ==> (asc ==> Ascii(buf[..len])) && copied <= buf.Length <= 2 * len)
    }

    constructor ()
      ensures Valid() && !tip && handed == {} && fresh(buf)
    {
      buf, len, tip, asc, handed, copied := new byte[0], 0, false, false, {}, 0;
    }

    predicate Newest(s: View)
      reads this
    {
      tip && s.block == buf && s.from == 0 && s.len == len
    }

    // Room for `total` bytes, beginning with s: its own block while s is its
    // newest string, else a copy.
    method Reserve(s: View, total: nat)
      requires Valid() && Fits(s) && s.len <= total && 0 < total
      modifies this
      ensures len == s.len && total <= buf.Length <= 2 * total && copied <= buf.Length
      ensures buf[..len] == old(Content(s)) && (asc ==> Ascii(buf[..len]))
      ensures copied == (if old(Newest(s)) then old(copied) else s.len) + (if old(Newest(s)) && total > old(buf.Length) then s.len else 0)
      ensures buf == old(buf) || fresh(buf)
      ensures buf == old(buf) ==> len == old(len)
      ensures handed == old(handed)
      ensures forall v: View | v in handed :: Fits(v) && (v.block == buf ==> v.from + v.len <= len)
      ensures old(Newest(s)) && total <= old(buf).Length ==> buf == old(buf)
    {
      if !Newest(s) {
        buf := Copied(s.block, s.from, s.len, 2 * total);
        len, copied := s.len, s.len;
        asc := IsAscii(buf[..len]);
      }
      if total > buf.Length {
        buf := Copied(buf, 0, len, 2 * total);
        copied := copied + len;
      }
    }

    // append, of one part: past the end, so no string handed out is touched.
    method Extend(p: View)
      requires len + p.len <= buf.Length && Fits(p)
      requires p.block == buf ==> p.from + p.len <= len
      modifies this`len, this`asc, buf
      ensures len == old(len) + p.len && buf[..len] == old(buf[..len]) + old(Content(p))
      ensures forall i :: 0 <= i < old(len) ==> buf[i] == old(buf[i])
      ensures old(asc ==> Ascii(buf[..len])) ==> (asc ==> Ascii(buf[..len]))
    {
      hide Ascii;
      var ascii := IsAscii(p.block[p.from..p.from + p.len]);
      asc := asc && ascii;
      ghost var before, part := buf[..len], Content(p);
      CopyPast(buf, len, p);
      assert forall i :: 0 <= i < len ==> buf[i] == before[i];
      len := len + p.len;
      assert buf[..len] == before + part;
      if asc && Ascii(before) { AsciiAppend(before, part); }
    }

    // The parts appended, one by one.
    method ExtendAll(parts: seq<View>)
      requires len + TotalLen(parts) <= buf.Length
      requires forall i :: 0 <= i < |parts| ==> Fits(parts[i]) && (parts[i].block == buf ==> parts[i].from + parts[i].len <= len)
      modifies this`len, this`asc, buf
      ensures len == old(len) + TotalLen(parts) && buf[..len] == old(buf[..len]) + Flat(old(Contents(parts)))
      ensures forall i :: 0 <= i < old(len) ==> buf[i] == old(buf[i])
      ensures old(asc ==> Ascii(buf[..len])) ==> (asc ==> Ascii(buf[..len]))
    {
      hide Ascii, Flat, TotalLen;
      ghost var start := buf[..len];
      ghost var all := Contents(parts);
      assert all[0..] == all && parts[0..] == parts;
      for k := 0 to |parts|
        invariant len + TotalLen(parts[k..]) == old(len) + TotalLen(parts) && old(len) <= len
        invariant old(asc ==> Ascii(buf[..len])) ==> (asc ==> Ascii(buf[..len]))
        invariant start <= buf[..len]
        invariant buf[..len] + Flat(all[k..]) == start + Flat(all)
      {
        PartAt(parts, all, k);
        ghost var before := buf[..len];
        assert Content(parts[k]) == all[k];
        Extend(parts[k]);
        assert before <= buf[..len];
        Assoc(before, all[k], Flat(all[k + 1..]));
      }
      NoParts(parts, all);
      assert forall i :: 0 <= i < old(len) ==> buf[i] == buf[..len][i] == start[i];
      assert buf[..len] + [] == buf[..len];
    }

    // The new newest string.
    method Fill(s: View, parts: seq<View>, total: nat) returns (r: View)
      requires len == s.len && total == s.len + TotalLen(parts) && total <= buf.Length <= 2 * total && copied <= buf.Length
      requires asc ==> Ascii(buf[..len])
      requires forall v: View | v in handed :: Fits(v) && (v.block == buf ==> v.from + v.len <= len)
      requires forall i :: 0 <= i < |parts| ==> Fits(parts[i]) && (parts[i].block == buf ==> parts[i].from + parts[i].len <= len)
      modifies this, buf
      ensures Valid() && buf == old(buf) && r == View(buf, 0, len) && Newest(r) && handed == old(handed) + {r}
      ensures Content(r) == old(buf[..len]) + Flat(old(Contents(parts)))
      ensures len == total && forall i :: 0 <= i < old(len) ==> buf[i] == old(buf[i])
    {
      hide Ascii, Flat;
      ExtendAll(parts);
      tip := true;
      r := View(buf, 0, len);
      assert Content(r) == buf[..len];
      handed := handed + {r};
    }

    // A string the program may hold: not past the newest one of its block.
    ghost predicate Held(v: View)
      reads this
    {
      Fits(v) && (v.block == buf ==> v.from + v.len <= len)
    }

    // StrConcat's string, the accumulator left behind.
    method AppendApart(all: seq<bytes>) returns (r: Option<View>)
      requires Valid()
      modifies this
      ensures Valid() && buf == old(buf) && len == old(len) && !tip && old(handed) <= handed
      ensures r.None? <==> |all| > 1 && |UnitsOfAll(all)| > STRING_LIMIT
      ensures r.Some? ==> r.value in handed && Content(r.value) == Join(all)
    {
      hide Ascii, Units, CanonicalAfter, Join;
      tip := false;
      var whole := StrConcat(all);
      if whole.None? { return None; }
      var v := NewString(whole.value);
      handed := handed + {v};
      r := Some(v);
    }

    // The binding's own block, extended.
    method AppendInPlace(s: View, parts: seq<View>, total: nat) returns (r: View)
      requires Valid() && Held(s) && forall i :: 0 <= i < |parts| ==> Fits(parts[i]) && Held(parts[i])
      requires total == s.len + TotalLen(parts) && total > 0
      modifies this, buf
      ensures Valid() && handed == old(handed) + {r} && Newest(r)
      ensures forall v: View | v in old(handed) :: Content(v) == old(Content(v))
      ensures forall i :: 0 <= i < old(len) ==> old(buf)[i] == old(buf[i])
      ensures Content(r) == old(Content(s)) + Flat(old(Contents(parts)))
    {
      hide Ascii, Flat;
      ghost var pieces := Contents(parts);
      Reserve(s, total);
      assert Contents(parts) == pieces;
      assert buf == old(buf) ==> len == old(len);
      r := Fill(s, parts, total);
      forall v: View | v in old(handed)
        ensures Content(v) == old(Content(v))
      {
        assert forall i :: v.from <= i < v.from + v.len ==> v.block[i] == old(v.block[i]);
      }
    }

    /** Append: s and the parts joined as StrConcat joins them, while every
        string handed out, and any start of one, keeps its bytes. */
    method Append(s: View, parts: seq<View>) returns (r: Option<View>)
      requires Valid() && Held(s) && forall i :: 0 <= i < |parts| ==> Fits(parts[i]) && Held(parts[i])
      modifies this, buf
      ensures Valid() && old(handed) <= handed
      ensures forall v: View | v in old(handed) :: Content(v) == old(Content(v))
      ensures forall i :: 0 <= i < old(len) ==> old(buf)[i] == old(buf[i])
      ensures r.None? <==> parts != [] && |UnitsOfAll(old([Content(s)] + Contents(parts)))| > STRING_LIMIT
      ensures r.Some? ==> r.value in handed && Content(r.value) == Join(old([Content(s)] + Contents(parts)))
      ensures r.Some? && tip ==> Newest(r.value) && copied <= 2 * r.value.len
    {
      hide Ascii, EndsHigh, StartsLow, Units, CanonicalAfter, UnitsOfAll, WithAll, Joins;
      ghost var all := [Content(s)] + Contents(parts);
      var total := s.len + TotalLen(parts);
      var joins := SeamJoins(Content(s), Contents(parts));
      if total < ACC_MIN || total > STRING_LIMIT || joins {
        r := AppendApart([Content(s)] + Contents(parts));
        return;
      }
      NoLonger([s] + parts);
      assert ([s] + parts)[1..] == parts && all[1..] == Contents(parts);
      var v := AppendInPlace(s, parts, total);
      r := Some(v);
    }

    /** Length: the byte count where that is the length. */
    method Length(s: View) returns (n: nat)
      requires Valid() && Fits(s)
      ensures n == |Units(Content(s))|
    {
      if asc && Newest(s) {
        AsciiUnits(Content(s), []);
        assert Content(s) + [] == Content(s) && Units([]) == [];
        return s.len;
      }
      n := Utf16Len(s.block[s.from..s.from + s.len]);
    }
  }

  lemma {:induction false} NoLonger(parts: seq<View>)
    requires forall i :: 0 <= i < |parts| ==> Fits(parts[i])
    ensures |UnitsOfAll(Contents(parts))| <= TotalLen(parts)
    decreases |parts|
  {
    hide Units;
    if parts != [] {
      NoLonger(parts[1..]);
      UnitsNoLonger(Content(parts[0]));
      assert Contents(parts)[1..] == Contents(parts[1..]);
    }
  }

  /** seamJoins. */
  method SeamJoins(s: bytes, parts: seq<bytes>) returns (joins: bool)
    ensures joins <==> Joins([s] + parts, false)
  {
    hide EndsHigh, StartsLow;
    var high := s != [] && EndsHigh(s);
    assert ([s] + parts)[1..] == parts && parts[0..] == parts;
    for k := 0 to |parts|
      invariant Joins([s] + parts, false) <==> Joins(parts[k..], high)
    {
      assert parts[k..][0] == parts[k] && parts[k..][1..] == parts[k + 1..];
      if parts[k] != [] {
        if high && StartsLow(parts[k]) { return true; }
        high := EndsHigh(parts[k]);
      }
    }
    joins := false;
  }
}
