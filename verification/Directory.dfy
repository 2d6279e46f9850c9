/** The directory record: the named roots in ascending name order, as a length-prefixed table. */
module Directory {
  import opened Options
  import opened Codec

  type Name = Bytes
  type Roots = map<Name, nat>

  // ---- The iteration order of std::map<std::string, ...> -----------------------

  predicate Before(a: Name, b: Name) {
    b != [] && (a == [] || a[0] < b[0] || (a[0] == b[0] && Before(a[1..], b[1..])))
  }

  lemma {:induction false} BeforeTotal(a: Name, b: Name)
    ensures a == b || Before(a, b) || Before(b, a)
    ensures !(Before(a, b) && Before(b, a))
  {
    if a != [] && b != [] {
      BeforeTotal(a[1..], b[1..]);
      assert a == [a[0]] + a[1..] && b == [b[0]] + b[1..];
    }
  }

  lemma {:induction false} BeforeTransitive(a: Name, b: Name, c: Name)
    requires Before(a, b) && Before(b, c)
    ensures Before(a, c)
  {
    if a != [] && a[0] == b[0] == c[0] {
      BeforeTransitive(a[1..], b[1..], c[1..]);
    }
  }

  predicate IsFirst(n: Name, names: set<Name>) {
    n in names && forall m :: m in names && m != n ==> Before(n, m)
  }

  lemma {:induction false} FirstExists(names: set<Name>)
    requires names != {}
    ensures exists n :: IsFirst(n, names)
  {
    var some :| some in names;
    if names == {some} {
      assert IsFirst(some, names);
      return;
    }
    FirstExists(names - {some});
    var least :| IsFirst(least, names - {some});
    BeforeTotal(some, least);
    if Before(some, least) {
      forall m | m in names && m != some ensures Before(some, m) {
        if m != least { BeforeTransitive(some, least, m); }
      }
      assert IsFirst(some, names);
    } else {
      assert IsFirst(least, names);
    }
  }

  ghost function First(names: set<Name>): (n: Name)
    requires names != {}
    ensures IsFirst(n, names)
  {
    FirstExists(names);
    var n :| IsFirst(n, names);
    n
  }

  lemma FirstUnique(n: Name, names: set<Name>)
    requires IsFirst(n, names)
    ensures n == First(names)
  {
    BeforeTotal(n, First(names));
  }

  ghost function Sorted(names: set<Name>): (s: seq<Name>)
    ensures |s| == |names| && forall n :: n in s <==> n in names
  {
    if names == {} then [] else [First(names)] + Sorted(names - {First(names)})
  }

  // ---- Encoding ------------------------------------------------------------------

  function Entry(name: Name, id: nat): Bytes {
    LittleEndian(|name|, 4) + name + LittleEndian(id, 8)
  }

  ghost function Entries(names: seq<Name>, roots: Roots): Bytes
    requires forall n :: n in names ==> n in roots
  {
    if names == [] then [] else Entry(names[0], roots[names[0]]) + Entries(names[1..], roots)
  }

  ghost function Encode(roots: Roots): Bytes {
    LittleEndian(|roots|, 4) + Entries(Sorted(roots.Keys), roots)
  }

  lemma {:induction false} SortedAscends(names: set<Name>, i: nat, j: nat)
    requires i < j < |Sorted(names)|
    ensures Before(Sorted(names)[i], Sorted(names)[j])
  {
    var first, rest := First(names), names - {First(names)};
    assert Sorted(names) == [first] + Sorted(rest);
    if i == 0 {
      assert Sorted(rest)[j - 1] in Sorted(rest);
    } else {
      SortedAscends(rest, i - 1, j - 1);
    }
  }

  /** Where entry i starts. */
  function Offset(names: seq<Name>, i: nat): nat
    requires i <= |names|
  {
    if i == 0 then 4 else Offset(names, i - 1) + 12 + |names[i - 1]|
  }

  lemma {:induction false} OffsetRest(names: seq<Name>, i: nat)
    requires 0 < i <= |names|
    ensures Offset(names, i) == Offset(names[1..], i - 1) + 12 + |names[0]|
  {
    if i > 1 { OffsetRest(names, i - 1); }
  }

  /** The record byte for byte: the count, and then for each root, in ascending order of the names, the length
      of the name, the name and the id. */
  lemma EncodedExactly(roots: Roots, i: nat) returns (before: Bytes, after: Bytes)
    requires i < |roots|
    ensures |Sorted(roots.Keys)| == |roots| && |before| == Offset(Sorted(roots.Keys), i)
    ensures i + 1 < |roots| ==> Before(Sorted(roots.Keys)[i], Sorted(roots.Keys)[i + 1])
    ensures i + 1 == |roots| ==> after == []
    ensures before[..4] == LittleEndian(|roots|, 4)
    ensures var name := Sorted(roots.Keys)[i];
            Encode(roots) == before + (LittleEndian(|name|, 4) + name + LittleEndian(roots[name], 8)) + after
  {
    var names := Sorted(roots.Keys);
    assert |roots.Keys| == |roots|;
    if i + 1 < |names| { SortedAscends(roots.Keys, i, i + 1); }
    var front;
    front, after := EntriesExactly(names, roots, i);
    before := LittleEndian(|roots|, 4) + front;
    hide Sorted, Entries, Offset, Entry;
    Joined(LittleEndian(|roots|, 4), front, Entry(names[i], roots[names[i]]), after);
    EntryIs(names[i], roots[names[i]]);
  }

  lemma EntryIs(name: Name, id: nat)
    ensures Entry(name, id) == LittleEndian(|name|, 4) + name + LittleEndian(id, 8)
  {
  }

  lemma Joined(a: Bytes, b: Bytes, c: Bytes, d: Bytes)
    ensures a + (b + c + d) == (a + b) + c + d && (a + b)[..|a|] == a
  {
  }

  lemma {:induction false} EntriesExactly(names: seq<Name>, roots: Roots, i: nat) returns (before: Bytes, after: Bytes)
    requires i < |names| && forall n :: n in names ==> n in roots
    ensures Entries(names, roots) == before + Entry(names[i], roots[names[i]]) + after
    ensures |before| + 4 == Offset(names, i) && (i + 1 == |names| ==> after == [])
    decreases |names|
  {
    var rest := names[1..];
    var e := Entry(names[0], roots[names[0]]);
    if i == 0 {
      before, after := [], Entries(rest, roots);
      assert [] + e + after == e + after;
    } else {
      var front;
      front, after := EntriesExactly(rest, roots, i - 1);
      before := e + front;
      OffsetRest(names, i);
      Joined(e, front, Entry(names[i], roots[names[i]]), after);
    }
  }

  // ---- Decoding ------------------------------------------------------------------

  datatype Parsed = Corrupt | Parsed(name: Name, id: nat, rest: Bytes)

  /** The first entry of p and what follows it; Corrupt is the "corrupt directory" exception. */
  function NextEntry(p: Bytes): Parsed {
    if |p| < 4 then Corrupt
    else
      var len := FromLittleEndian(p[..4]);
      if |p| < 4 + len + 8 then Corrupt
      else Parsed(p[4..4 + len], FromLittleEndian(p[4 + len..12 + len]), p[12 + len..])
  }

  /** A repeated name keeps its last id. */
  function DecodeEntries(p: Bytes, count: nat, acc: Roots): Option<Roots>
    decreases count
  {
    if count == 0 then Some(acc)
    else
      match NextEntry(p)
      case Corrupt => None
      case Parsed(name, id, rest) => DecodeEntries(rest, count - 1, acc[name := id])
  }

  function Decode(p: Bytes): Option<Roots> {
    if |p| < 4 then None else DecodeEntries(p[4..], FromLittleEndian(p[..4]), map[])
  }

  /** Every count, name length and id fits the field that stores it. */
  predicate Fits(roots: Roots) {
    |roots| < U32_LIMIT && FieldsFit(roots)
  }

  predicate FieldsFit(roots: Roots) {
    forall n :: n in roots ==> |n| < U32_LIMIT && roots[n] < U64_LIMIT
  }

  lemma {:induction false} DecodedFieldsFit(p: Bytes, count: nat, acc: Roots, found: Roots)
    requires FieldsFit(acc)
    requires DecodeEntries(p, count, acc) == Some(found)
    ensures FieldsFit(found)
    decreases count
  {
    if count > 0 {
      var e := NextEntry(p);
      NextEntryFits(p);
      DecodedFieldsFit(e.rest, count - 1, acc[e.name := e.id], found);
    }
  }

  lemma {:induction false} DecodedSize(p: Bytes, count: nat, acc: Roots, found: Roots)
    requires DecodeEntries(p, count, acc) == Some(found)
    ensures |found| <= |acc| + count
    decreases count
  {
    if count > 0 {
      var e := NextEntry(p);
      AtMostOneMore(acc, e.name, e.id);
      DecodedSize(e.rest, count - 1, acc[e.name := e.id], found);
    }
  }

  lemma NextEntryFits(p: Bytes)
    ensures var e := NextEntry(p); e.Parsed? ==> |e.name| < U32_LIMIT && e.id < U64_LIMIT
  {
    Widths();
  }

  lemma DecodedFits(p: Bytes)
    ensures Decode(p).Some? ==> Fits(Decode(p).value)
  {
    Widths();
    if Decode(p).Some? {
      DecodedFieldsFit(p[4..], FromLittleEndian(p[..4]), map[], Decode(p).value);
      DecodedSize(p[4..], FromLittleEndian(p[..4]), map[], Decode(p).value);
    }
  }

  lemma AtMostOneMore(acc: Roots, name: Name, id: nat)
    ensures |acc[name := id]| <= |acc| + 1
  {
    assert acc[name := id].Keys == acc.Keys + {name};
    if name in acc {
      assert acc.Keys + {name} == acc.Keys;
    }
  }

  ghost function Overlay(acc: Roots, names: seq<Name>, roots: Roots): Roots
    requires forall n :: n in names ==> n in roots
    decreases |names|
  {
    if names == [] then acc else Overlay(acc[names[0] := roots[names[0]]], names[1..], roots)
  }

  lemma {:induction false} OverlayValues(acc: Roots, names: seq<Name>, roots: Roots)
    requires forall n :: n in names ==> n in roots
    ensures forall n :: n in Overlay(acc, names, roots) <==> n in acc || n in names
    ensures forall n :: n in names ==> Overlay(acc, names, roots)[n] == roots[n]
    ensures forall n :: n in acc && n !in names ==> Overlay(acc, names, roots)[n] == acc[n]
    decreases |names|
  {
    if names != [] {
      OverlayValues(acc[names[0] := roots[names[0]]], names[1..], roots);
    }
  }

  lemma EntryParses(name: Name, id: nat, tail: Bytes)
    requires |name| < U32_LIMIT && id < U64_LIMIT
    ensures NextEntry(Entry(name, id) + tail) == Parsed(name, id, tail)
  {
    Widths();
    NarrowReads(|name|, 4);
    NarrowReads(id, 8);
    var p := Entry(name, id) + tail;
    assert p[..4] == LittleEndian(|name|, 4);
    assert p[4..4 + |name|] == name;
    assert p[4 + |name|..12 + |name|] == LittleEndian(id, 8);
    assert p[12 + |name|..] == tail;
  }

  lemma {:induction false} EntriesDecode(names: seq<Name>, roots: Roots, acc: Roots)
    requires forall n :: n in names ==> n in roots && |n| < U32_LIMIT && roots[n] < U64_LIMIT
    ensures DecodeEntries(Entries(names, roots), |names|, acc) == Some(Overlay(acc, names, roots))
    decreases |names|
  {
    if names != [] {
      var name, rest := names[0], names[1..];
      EntryParses(name, roots[name], Entries(rest, roots));
      EntriesDecode(rest, roots, acc[name := roots[name]]);
    }
  }

  lemma FittingRootsDecode(roots: Roots)
    requires Fits(roots)
    ensures Decode(Encode(roots)) == Some(roots)
  {
    var names, p := Sorted(roots.Keys), Encode(roots);
    Widths();
    NarrowReads(|roots|, 4);
    assert p[..4] == LittleEndian(|roots|, 4) && p[4..] == Entries(names, roots);
    EntriesDecode(names, roots, map[]);
    OverlayAll(roots);
  }

  lemma OverlayAll(roots: Roots)
    ensures Overlay(map[], Sorted(roots.Keys), roots) == roots
  {
    OverlayValues(map[], Sorted(roots.Keys), roots);
  }

  /** The directory restores exactly the roots that fit their fields: a name of 4 GiB or more
      has its length truncated and is not read back. */
  lemma DirectoryRoundTrip(roots: Roots)
    ensures Decode(Encode(roots)) == Some(roots) <==> Fits(roots)
  {
    if Fits(roots) {
      FittingRootsDecode(roots);
    } else {
      DecodedFits(Encode(roots));
    }
  }

  // ---- The loops of saveDirectoryLocked and loadDirectory ---------------------------

  method FirstName(names: set<Name>) returns (n: Name)
    requires names != {}
    ensures n == First(names)
  {
    FirstExists(names);
    n :| n in names && forall m :: m in names && m != n ==> Before(n, m);
    FirstUnique(n, names);
  }

  lemma EntriesUnfold(left: set<Name>, roots: Roots)
    requires left != {} && left <= roots.Keys
    ensures var n := First(left);
            Entries(Sorted(left), roots) == Entry(n, roots[n]) + Entries(Sorted(left - {n}), roots)
  {
    var names := Sorted(left);
    assert names[0] == First(left) && names[1..] == Sorted(left - {First(left)});
  }

  method WriteEntry(name: Name, id: nat) returns (e: Bytes)
    ensures e == Entry(name, id)
  {
    var len := PutLittleEndian(|name|, 4);
    var number := PutLittleEndian(id, 8);
    return len + name + number;
  }

  lemma EncodeStarts(roots: Roots)
    ensures Encode(roots) == LittleEndian(|roots|, 4) + Entries(Sorted(roots.Keys), roots)
  {
  }

  lemma EncodeEnds(out: Bytes, roots: Roots)
    ensures out + Entries(Sorted({}), roots) == out
  {
  }

  method Write(roots: Roots) returns (out: Bytes)
    ensures out == Encode(roots)
  {
    hide Encode, Entries, Sorted, Entry, First;
    EncodeStarts(roots);
    out := PutLittleEndian(|roots|, 4);
    var left := roots.Keys;
    while left != {}
      invariant left <= roots.Keys
      invariant out + Entries(Sorted(left), roots) == Encode(roots)
    {
      var name := FirstName(left);
      var entry := WriteEntry(name, roots[name]);
      EntriesUnfold(left, roots);
      ghost var tail := Entries(Sorted(left - {name}), roots);
      assert out + (entry + tail) == (out + entry) + tail;
      out := out + entry;
      left := left - {name};
    }
    EncodeEnds(out, roots);
  }

  method ReadEntry(p: Bytes) returns (e: Parsed)
    ensures e == NextEntry(p)
  {
    if |p| < 4 {
      return Corrupt;
    }
    var len := GetLittleEndian(p[..4]);
    if |p| < 4 + len + 8 {
      return Corrupt;
    }
    var id := GetLittleEndian(p[4 + len..12 + len]);
    return Parsed(p[4..4 + len], id, p[12 + len..]);
  }

  method Read(p: Bytes) returns (roots: Option<Roots>)
    ensures roots == Decode(p)
  {
    if |p| < 4 {
      return None;
    }
    var left := GetLittleEndian(p[..4]);
    var rest, found: Roots := p[4..], map[];
    while left > 0
      invariant left >= 0 && DecodeEntries(rest, left, found) == Decode(p)
    {
      var e := ReadEntry(rest);
      if e.Corrupt? {
        return None;
      }
      found, rest := found[e.name := e.id], e.rest;
      left := left - 1;
    }
    return Some(found);
  }
}
