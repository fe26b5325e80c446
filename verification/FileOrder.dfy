/**
 The order of the file list: a label filter, then a sort with uploads on top and
 folders before files, or, for the recent view, with uploads on top only.

 Array sort is taken as section 23.1.3.30 of ECMA-262 (2023) defines it: given a
 consistent comparator it returns the elements in order, ties in input order.
 */
module FileOrder {
  import opened Common

  /** `updatedAt` is None when the date does not parse, `size` None when it is missing. */
  datatype File = File(id: string, name: string, isFolder: bool, uploading: bool, size: Option<int>,
                       updatedAt: Option<int>, labels: set<string>)

  datatype Field = Name | Type | Size | Modified | Recent

  type Collation = (string, string) -> int

  /** Locale-dependent operations: the numeric, case-blind comparison, the plain one, and lower-casing. */
  datatype Locale = Locale(base: Collation, plain: Collation, lower: string -> string)

  // -------------------------------------------------------------------
  // The comparator
  // -------------------------------------------------------------------

  /** What follows the last dot, or the whole name. */
  function AfterLastDot(name: string): string {
    if name == "" then ""
    else if '.' in name[1..] then AfterLastDot(name[1..])
    else if name[0] == '.' then name[1..] else name
  }

  /** It has no dot, and is either the whole name or preceded by one. */
  lemma {:induction false} AfterLastDotExactly(name: string)
    ensures var r := AfterLastDot(name);
            '.' !in r && (r == name || exists k :: 0 <= k < |name| && name[k] == '.' && name[k + 1..] == r)
    decreases |name|
  {
    if name != "" && '.' in name[1..] {
      var r := AfterLastDot(name);
      AfterLastDotExactly(name[1..]);
      assert r != name[1..];
      var k :| 0 <= k < |name[1..]| && name[1..][k] == '.' && name[1..][k + 1..] == r;
      assert name[k + 1] == '.' && name[k + 2..] == r;
    }
  }

  function TypeKey(loc: Locale, f: File): string {
    loc.lower(if f.isFolder then "" else AfterLastDot(f.name))
  }

  /** Folders have no extension, files have what follows the last dot or else the whole name, in lower case. */
  lemma TypeKeyExactly(loc: Locale, f: File)
    ensures f.isFolder ==> TypeKey(loc, f) == loc.lower("")
    ensures !f.isFolder ==>
              exists r :: TypeKey(loc, f) == loc.lower(r) && '.' !in r
                          && (r == f.name || exists k :: 0 <= k < |f.name| && f.name[k] == '.' && f.name[k + 1..] == r)
  {
    AfterLastDotExactly(f.name);
  }

  function SizeOf(f: File): int {
    if f.size.Some? then f.size.value else 0
  }

  /** With an unparsable date the difference is NaN, which sort takes as 0. */
  function CompareField(loc: Locale, field: Field, a: File, b: File): int {
    match field
    case Name => loc.base(a.name, b.name)
    case Type =>
      var c := loc.plain(TypeKey(loc, a), TypeKey(loc, b));
      if c != 0 then c else loc.plain(a.name, b.name)
    case Size => SizeOf(a) - SizeOf(b)
    case Modified =>
      if a.updatedAt.Some? && b.updatedAt.Some? then a.updatedAt.value - b.updatedAt.value else 0
    case Recent => 0
  }

  function Compare(loc: Locale, field: Field, ascending: bool, a: File, b: File): int {
    if a.uploading && !b.uploading then -1
    else if !a.uploading && b.uploading then 1
    else if field.Recent? then 0
    else if a.isFolder != b.isFolder then if a.isFolder then -1 else 1
    else
      var c := CompareField(loc, field, a, b);
      if ascending then c else -c
  }

  type Comparator = (File, File) -> int

  function By(loc: Locale, field: Field, ascending: bool): Comparator {
    (a, b) => Compare(loc, field, ascending, a, b)
  }

  /** A total preorder on the elements of the list, which is what makes a comparator consistent. */
  ghost predicate Consistent(cmp: Comparator, fs: seq<File>) {
    && (forall a, b :: a in fs && b in fs ==> (cmp(a, b) < 0 <==> cmp(b, a) > 0))
    && (forall a, b, c :: a in fs && b in fs && c in fs && cmp(a, b) <= 0 && cmp(b, c) <= 0 ==> cmp(a, c) <= 0)
  }

  ghost predicate IsPreorder(c: Collation) {
    && (forall x, y :: c(x, y) < 0 <==> c(y, x) > 0)
    && (forall x, y, z :: c(x, y) <= 0 && c(y, z) <= 0 ==> c(x, z) <= 0)
  }

  ghost predicate Collates(loc: Locale) {
    IsPreorder(loc.base) && IsPreorder(loc.plain)
  }

  predicate SameBlock(a: File, b: File) {
    a.uploading == b.uploading && a.isFolder == b.isFolder
  }

  /** In no block does an unparsable date meet two different ones. */
  ghost predicate DatesComparable(field: Field, fs: seq<File>) {
    field.Modified? ==>
      forall a, b, c :: a in fs && b in fs && c in fs && SameBlock(a, b) && SameBlock(b, c)
                        && a.updatedAt.None? && b.updatedAt.Some? && c.updatedAt.Some? ==>
        b.updatedAt == c.updatedAt
  }

  lemma FieldOrders(loc: Locale, field: Field, a: File, b: File, c: File)
    requires Collates(loc)
    requires field.Modified? ==> a.updatedAt.Some? && b.updatedAt.Some? && c.updatedAt.Some?
    ensures CompareField(loc, field, a, b) < 0 <==> CompareField(loc, field, b, a) > 0
    ensures CompareField(loc, field, a, b) <= 0 && CompareField(loc, field, b, c) <= 0 ==>
              CompareField(loc, field, a, c) <= 0
  {
    if field.Type? {
      var ka, kb, kc := TypeKey(loc, a), TypeKey(loc, b), TypeKey(loc, c);
      assert loc.plain(ka, kb) < 0 <==> loc.plain(kb, ka) > 0;
      assert loc.plain(ka, kc) < 0 <==> loc.plain(kc, ka) > 0;
      assert loc.plain(kb, kc) < 0 <==> loc.plain(kc, kb) > 0;
      assert loc.plain(ka, kc) == 0 && loc.plain(ka, kb) <= 0 && loc.plain(kb, kc) <= 0 ==>
          loc.plain(kc, kb) <= 0 && loc.plain(kb, ka) <= 0;
    }
  }

  /** The comparator is consistent on a list exactly if its dates are comparable. */
  lemma ConsistentExactly(loc: Locale, field: Field, ascending: bool, fs: seq<File>)
    requires Collates(loc)
    ensures Consistent(By(loc, field, ascending), fs) <==> DatesComparable(field, fs)
  {
    var cmp := By(loc, field, ascending);
    if DatesComparable(field, fs) {
      forall a, b, c | a in fs && b in fs && c in fs
        ensures cmp(a, b) < 0 <==> cmp(b, a) > 0
        ensures cmp(a, b) <= 0 && cmp(b, c) <= 0 ==> cmp(a, c) <= 0
      {
        OrdersThree(loc, field, ascending, fs, a, b, c);
      }
    }
    if Consistent(cmp, fs) && field.Modified? {
      forall a, b, c | a in fs && b in fs && c in fs && SameBlock(a, b) && SameBlock(b, c)
                       && a.updatedAt.None? && b.updatedAt.Some? && c.updatedAt.Some?
        ensures b.updatedAt == c.updatedAt
      {
        assert cmp(a, b) == 0 && cmp(b, a) == 0 && cmp(a, c) == 0 && cmp(c, a) == 0;
        assert cmp(b, c) <= 0 && cmp(c, b) <= 0;
      }
    }
  }

  function Dated(id: string, updatedAt: Option<int>): File {
    File(id, id, false, false, None, updatedAt, {})
  }

  /** Three files for which it is not: both dates tie with the unparsable one, but not with each other. */
  lemma UnparsableDateBreaksTheOrder(loc: Locale, ascending: bool)
    ensures var cmp := By(loc, Modified, ascending);
            var a, b, c := Dated("a", None), Dated("b", Some(1)), Dated("c", Some(2));
            && cmp(a, b) == 0 && cmp(a, c) == 0 && cmp(b, c) != 0
            && !Consistent(cmp, [a, b, c])
  {
    var cmp, a, b, c := By(loc, Modified, ascending), Dated("a", None), Dated("b", Some(1)), Dated("c", Some(2));
    var fs := [a, b, c];
    assert fs[0] in fs && fs[1] in fs && fs[2] in fs;
    assert cmp(b, a) == 0 && cmp(c, a) == 0;
  }

  lemma OrdersThree(loc: Locale, field: Field, ascending: bool, fs: seq<File>, a: File, b: File, c: File)
    requires Collates(loc) && DatesComparable(field, fs) && a in fs && b in fs && c in fs
    ensures var cmp := By(loc, field, ascending);
            && (cmp(a, b) < 0 <==> cmp(b, a) > 0)
            && (cmp(a, b) <= 0 && cmp(b, c) <= 0 ==> cmp(a, c) <= 0)
  {
    if !field.Modified? {
      FieldOrders(loc, field, a, b, c);
      FieldOrders(loc, field, b, c, a);
      FieldOrders(loc, field, c, b, a);
      FieldOrders(loc, field, c, a, b);
    }
  }

  // -------------------------------------------------------------------
  // Stable sorting
  // -------------------------------------------------------------------

  function Keep(p: File -> bool, fs: seq<File>): seq<File> {
    if fs == [] then [] else (if p(fs[0]) then [fs[0]] else []) + Keep(p, fs[1..])
  }

  /** `f`, which came after all of `s`, goes behind everything that is not greater. */
  function Place(cmp: Comparator, s: seq<File>, f: File): seq<File> {
    if s == [] then [f]
    else if cmp(f, s[0]) < 0 then [f] + s
    else [s[0]] + Place(cmp, s[1..], f)
  }

  function Sort(cmp: Comparator, fs: seq<File>): seq<File>
    decreases |fs|
  {
    if fs == [] then [] else Place(cmp, Sort(cmp, fs[..|fs| - 1]), fs[|fs| - 1])
  }

  ghost predicate Ordered(cmp: Comparator, s: seq<File>) {
    forall k, l :: 0 <= k < l < |s| ==> cmp(s[k], s[l]) <= 0
  }

  function TiedWith(cmp: Comparator, x: File): File -> bool {
    (f: File) => cmp(x, f) == 0
  }

  /** In order, a permutation, and ties as in the input. */
  ghost predicate IsStableSort(cmp: Comparator, fs: seq<File>, s: seq<File>) {
    && Ordered(cmp, s)
    && multiset(s) == multiset(fs)
    && forall x :: x in fs ==> Keep(TiedWith(cmp, x), s) == Keep(TiedWith(cmp, x), fs)
  }

  lemma {:induction false} PlaceKeepsMembers(cmp: Comparator, s: seq<File>, f: File)
    ensures multiset(Place(cmp, s, f)) == multiset(s) + multiset{f}
    decreases |s|
  {
    if s != [] {
      PlaceKeepsMembers(cmp, s[1..], f);
      assert s == [s[0]] + s[1..];
    }
  }

  lemma {:induction false} SortKeepsMembers(cmp: Comparator, fs: seq<File>)
    ensures multiset(Sort(cmp, fs)) == multiset(fs) && forall x :: x in Sort(cmp, fs) <==> x in fs
    decreases |fs|
  {
    if fs != [] {
      SortKeepsMembers(cmp, fs[..|fs| - 1]);
      PlaceKeepsMembers(cmp, Sort(cmp, fs[..|fs| - 1]), fs[|fs| - 1]);
      MembersOfFront(fs);
    }
    MembersOf(Sort(cmp, fs), multiset(fs));
  }

  lemma MembersOfFront(fs: seq<File>)
    requires fs != []
    ensures multiset(fs) == multiset(fs[..|fs| - 1]) + multiset{fs[|fs| - 1]}
  {
    assert fs == fs[..|fs| - 1] + [fs[|fs| - 1]];
  }

  /** Once something in `s` is greater than `f`, so is all that follows. */
  ghost predicate Separates(cmp: Comparator, s: seq<File>, f: File) {
    forall k, l :: 0 <= k < l < |s| && cmp(f, s[k]) < 0 ==> cmp(f, s[l]) < 0
  }

  /** What `f` does not precede, precedes `f` or ties with it. */
  ghost predicate Meets(cmp: Comparator, s: seq<File>, f: File) {
    forall k :: 0 <= k < |s| && cmp(f, s[k]) >= 0 ==> cmp(s[k], f) <= 0
  }

  lemma OrderedSeparates(cmp: Comparator, all: seq<File>, s: seq<File>, f: File)
    requires Consistent(cmp, all) && f in all && (forall x :: x in s ==> x in all) && Ordered(cmp, s)
    ensures Separates(cmp, s, f) && Meets(cmp, s, f)
  {
    assert forall k :: 0 <= k < |s| ==> s[k] in all;
    forall k, l | 0 <= k < l < |s| && cmp(f, s[k]) < 0
      ensures cmp(f, s[l]) < 0
    {
      assert s[k] in all && s[l] in all;
      assert cmp(s[k], s[l]) <= 0;
    }
  }

  lemma {:induction false} PlaceMember(cmp: Comparator, s: seq<File>, f: File, x: File)
    ensures x in Place(cmp, s, f) <==> x == f || x in s
    decreases |s|
  {
    if s != [] {
      PlaceMember(cmp, s[1..], f, x);
    }
  }

  lemma {:induction false} PlaceKeepsOrder(cmp: Comparator, s: seq<File>, f: File)
    requires Ordered(cmp, s) && Separates(cmp, s, f) && Meets(cmp, s, f)
    ensures Ordered(cmp, Place(cmp, s, f))
    decreases |s|
  {
    if s != [] && cmp(f, s[0]) >= 0 {
      var rest := Place(cmp, s[1..], f);
      assert forall k :: 0 <= k < |s[1..]| ==> s[1..][k] == s[k + 1];
      PlaceKeepsOrder(cmp, s[1..], f);
      forall l | 0 <= l < |rest|
        ensures cmp(s[0], rest[l]) <= 0
      {
        PlaceMember(cmp, s[1..], f, rest[l]);
      }
    }
  }

  lemma {:induction false} SortOrders(cmp: Comparator, fs: seq<File>, all: seq<File>)
    requires Consistent(cmp, all) && forall x :: x in fs ==> x in all
    ensures Ordered(cmp, Sort(cmp, fs))
    decreases |fs|
  {
    if fs != [] {
      var front := fs[..|fs| - 1];
      SortOrders(cmp, front, all);
      SortKeepsMembers(cmp, front);
      OrderedSeparates(cmp, all, Sort(cmp, front), fs[|fs| - 1]);
      PlaceKeepsOrder(cmp, Sort(cmp, front), fs[|fs| - 1]);
    }
  }

  lemma {:induction false} KeepMembers(p: File -> bool, s: seq<File>, x: File)
    ensures x in Keep(p, s) <==> x in s && p(x)
    decreases |s|
  {
    if s != [] {
      KeepMembers(p, s[1..], x);
    }
  }

  /** If everything in `s` is greater than `f`, then so is everything kept of it. */
  lemma PlaceInFront(cmp: Comparator, p: File -> bool, s: seq<File>, f: File)
    requires forall k :: 0 <= k < |s| ==> cmp(f, s[k]) < 0
    ensures Place(cmp, Keep(p, s), f) == [f] + Keep(p, s)
  {
    if Keep(p, s) != [] {
      KeepMembers(p, s, Keep(p, s)[0]);
    }
  }

  lemma KeepHead(p: File -> bool, s: seq<File>)
    requires s != []
    ensures Keep(p, s) == if p(s[0]) then [s[0]] + Keep(p, s[1..]) else Keep(p, s[1..])
  {
  }

  lemma {:induction false} KeepAppend(p: File -> bool, s: seq<File>, t: seq<File>)
    ensures Keep(p, s + t) == Keep(p, s) + Keep(p, t)
    decreases |s|
  {
    if s == [] {
      assert s + t == t;
    } else {
      TailOfAppend(s, t);
      KeepHead(p, s);
      KeepHead(p, s + t);
      KeepAppend(p, s[1..], t);
      AppendIsAssociative([s[0]], Keep(p, s[1..]), Keep(p, t));
    }
  }

  lemma TailOfAppend(s: seq<File>, t: seq<File>)
    requires s != []
    ensures s + t != [] && (s + t)[0] == s[0] && (s + t)[1..] == s[1..] + t
  {
  }

  lemma AppendIsAssociative(a: seq<File>, b: seq<File>, c: seq<File>)
    ensures a + (b + c) == a + b + c
  {
  }

  lemma KeepOne(p: File -> bool, f: File)
    ensures Keep(p, [f]) == if p(f) then [f] else []
  {
    KeepHead(p, [f]);
  }

  lemma {:induction false} KeepPlaced(cmp: Comparator, p: File -> bool, s: seq<File>, f: File)
    requires Separates(cmp, s, f)
    ensures Keep(p, Place(cmp, s, f)) == if p(f) then Place(cmp, Keep(p, s), f) else Keep(p, s)
    decreases |s|
  {
    if s == [] {
      KeepOne(p, f);
    } else if cmp(f, s[0]) < 0 {
      PlaceInFront(cmp, p, s, f);
      KeepHead(p, [f] + s);
      assert ([f] + s)[1..] == s;
    } else {
      assert forall k :: 0 <= k < |s[1..]| ==> s[1..][k] == s[k + 1];
      KeepPlaced(cmp, p, s[1..], f);
      KeepHead(p, s);
      KeepHead(p, Place(cmp, s, f));
      assert Place(cmp, s, f)[1..] == Place(cmp, s[1..], f);
      if p(s[0]) {
        assert Keep(p, s)[1..] == Keep(p, s[1..]);
      }
    }
  }

  lemma KeepLast(p: File -> bool, s: seq<File>, f: File)
    ensures Keep(p, s + [f]) == if p(f) then Keep(p, s) + [f] else Keep(p, s)
  {
    KeepAppend(p, s, [f]);
    KeepOne(p, f);
    assert Keep(p, s) + [] == Keep(p, s);
  }

  lemma SortLast(cmp: Comparator, s: seq<File>, f: File)
    ensures Sort(cmp, s + [f]) == Place(cmp, Sort(cmp, s), f)
  {
    assert (s + [f])[..|s|] == s;
  }

  lemma KeepSortedOneMore(cmp: Comparator, p: File -> bool, s: seq<File>, f: File)
    requires Separates(cmp, Sort(cmp, s), f) && Keep(p, Sort(cmp, s)) == Sort(cmp, Keep(p, s))
    ensures Keep(p, Sort(cmp, s + [f])) == Sort(cmp, Keep(p, s + [f]))
  {
    SortLast(cmp, s, f);
    KeepPlaced(cmp, p, Sort(cmp, s), f);
    KeepLast(p, s, f);
    SortLast(cmp, Keep(p, s), f);
  }

  lemma SortedSeparates(cmp: Comparator, all: seq<File>, s: seq<File>, f: File)
    requires Consistent(cmp, all) && f in all && forall x :: x in s ==> x in all
    ensures Separates(cmp, Sort(cmp, s), f)
  {
    SortOrders(cmp, s, all);
    SortKeepsMembers(cmp, s);
    OrderedSeparates(cmp, all, Sort(cmp, s), f);
  }

  /** Filtering and sorting commute, for any filter at all. */
  lemma {:induction false} KeepSorted(cmp: Comparator, all: seq<File>, p: File -> bool, fs: seq<File>)
    requires Consistent(cmp, all) && forall x :: x in fs ==> x in all
    ensures Keep(p, Sort(cmp, fs)) == Sort(cmp, Keep(p, fs))
    decreases |fs|
  {
    if fs != [] {
      var front, last := fs[..|fs| - 1], fs[|fs| - 1];
      assert fs == front + [last];
      SortedSeparates(cmp, all, front, last);
      KeepSorted(cmp, all, p, front);
      KeepSortedOneMore(cmp, p, front, last);
    }
  }

  lemma {:induction false} PlaceBehindTies(cmp: Comparator, s: seq<File>, f: File)
    requires forall x :: x in s ==> cmp(f, x) >= 0
    ensures Place(cmp, s, f) == s + [f]
    decreases |s|
  {
    if s != [] {
      PlaceBehindTies(cmp, s[1..], f);
    }
  }

  lemma {:induction false} SortLeavesTies(cmp: Comparator, fs: seq<File>)
    requires forall x, y :: x in fs && y in fs ==> cmp(x, y) >= 0
    ensures Sort(cmp, fs) == fs
    decreases |fs|
  {
    if fs != [] {
      var front := fs[..|fs| - 1];
      SortLeavesTies(cmp, front);
      assert fs == front + [fs[|fs| - 1]];
      PlaceBehindTies(cmp, front, fs[|fs| - 1]);
    }
  }

  lemma SortIsStableSort(cmp: Comparator, fs: seq<File>)
    requires Consistent(cmp, fs)
    ensures IsStableSort(cmp, fs, Sort(cmp, fs))
  {
    SortOrders(cmp, fs, fs);
    SortKeepsMembers(cmp, fs);
    forall x | x in fs
      ensures Keep(TiedWith(cmp, x), Sort(cmp, fs)) == Keep(TiedWith(cmp, x), fs)
    {
      var p := TiedWith(cmp, x);
      KeepSorted(cmp, fs, p, fs);
      forall y, z | y in Keep(p, fs) && z in Keep(p, fs)
        ensures cmp(y, z) >= 0
      {
        KeepMembers(p, fs, y);
        KeepMembers(p, fs, z);
        assert cmp(z, x) <= 0 && cmp(x, y) <= 0;
      }
      SortLeavesTies(cmp, Keep(p, fs));
    }
  }

  // -------------------------------------------------------------------
  // There is only one stable sort
  // -------------------------------------------------------------------

  ghost predicate SameTies(cmp: Comparator, s: seq<File>, t: seq<File>) {
    forall x :: x in s || x in t ==> Keep(TiedWith(cmp, x), s) == Keep(TiedWith(cmp, x), t)
  }

  lemma MemberOfTies(cmp: Comparator, all: seq<File>, s: seq<File>, t: seq<File>, x: File)
    requires Consistent(cmp, all) && x in all && x in s && SameTies(cmp, s, t)
    ensures x in t
  {
    KeepMembers(TiedWith(cmp, x), s, x);
    KeepMembers(TiedWith(cmp, x), t, x);
  }

  lemma HeadsAgree(cmp: Comparator, all: seq<File>, s: seq<File>, t: seq<File>)
    requires Consistent(cmp, all) && (forall x :: x in s || x in t ==> x in all)
    requires Ordered(cmp, s) && Ordered(cmp, t) && SameTies(cmp, s, t) && s != [] && t != []
    ensures s[0] == t[0]
  {
    var a, b := s[0], t[0];
    assert a in s && b in t;
    MemberOfTies(cmp, all, s, t, a);
    MemberOfTies(cmp, all, t, s, b);
    var k :| 0 <= k < |t| && t[k] == a;
    var l :| 0 <= l < |s| && s[l] == b;
    assert k > 0 ==> cmp(t[0], t[k]) <= 0;
    assert l > 0 ==> cmp(s[0], s[l]) <= 0;
    assert cmp(a, a) == 0 && cmp(a, b) == 0;
    assert Keep(TiedWith(cmp, a), s)[0] == a && Keep(TiedWith(cmp, a), t)[0] == b;
  }

  lemma TailsTie(cmp: Comparator, s: seq<File>, t: seq<File>)
    requires s != [] && t != [] && s[0] == t[0] && SameTies(cmp, s, t)
    ensures SameTies(cmp, s[1..], t[1..])
  {
    forall x | x in s[1..] || x in t[1..]
      ensures Keep(TiedWith(cmp, x), s[1..]) == Keep(TiedWith(cmp, x), t[1..])
    {
      assert x in s || x in t;
      var p := TiedWith(cmp, x);
      assert Keep(p, s) == Keep(p, t);
      var head := if p(s[0]) then [s[0]] else [];
      assert (head + Keep(p, s[1..]))[|head|..] == Keep(p, s[1..]);
      assert (head + Keep(p, t[1..]))[|head|..] == Keep(p, t[1..]);
    }
  }

  lemma {:induction false} SortedAlike(cmp: Comparator, all: seq<File>, s: seq<File>, t: seq<File>)
    requires Consistent(cmp, all) && (forall x :: x in s || x in t ==> x in all)
    requires Ordered(cmp, s) && Ordered(cmp, t) && SameTies(cmp, s, t)
    ensures s == t
    decreases |s|
  {
    if s == [] {
      if t != [] {
        assert t[0] in t;
        MemberOfTies(cmp, all, t, s, t[0]);
      }
    } else {
      assert s[0] in s;
      MemberOfTies(cmp, all, s, t, s[0]);
      HeadsAgree(cmp, all, s, t);
      TailsTie(cmp, s, t);
      OrderedTail(cmp, s);
      OrderedTail(cmp, t);
      SortedAlike(cmp, all, s[1..], t[1..]);
      assert s == [s[0]] + s[1..] && t == [t[0]] + t[1..];
    }
  }

  lemma OrderedTail(cmp: Comparator, s: seq<File>)
    requires s != [] && Ordered(cmp, s)
    ensures Ordered(cmp, s[1..])
  {
    assert forall k :: 0 <= k < |s[1..]| ==> s[1..][k] == s[k + 1];
  }

  /** Being a stable sort of a list determines the result. */
  lemma StableSortIsUnique(cmp: Comparator, fs: seq<File>, s: seq<File>)
    requires Consistent(cmp, fs)
    ensures IsStableSort(cmp, fs, s) <==> s == Sort(cmp, fs)
  {
    SortIsStableSort(cmp, fs);
    if IsStableSort(cmp, fs, s) {
      SortKeepsMembers(cmp, fs);
      assert forall x :: x in s <==> x in fs by { MembersOf(s, multiset(fs)); }
      SortedAlike(cmp, fs, s, Sort(cmp, fs));
    }
  }

  // -------------------------------------------------------------------
  // The list on screen
  // -------------------------------------------------------------------

  function HasLabel(wanted: Option<string>): File -> bool {
    (f: File) => wanted.None? || wanted.value in f.labels
  }

  function SortedFiles(loc: Locale, field: Field, ascending: bool, wanted: Option<string>, fs: seq<File>): seq<File> {
    Sort(By(loc, field, ascending), Keep(HasLabel(wanted), fs))
  }

  lemma ConsistentOnPart(cmp: Comparator, p: File -> bool, fs: seq<File>)
    requires Consistent(cmp, fs)
    ensures Consistent(cmp, Keep(p, fs)) && forall x :: x in Keep(p, fs) ==> x in fs && p(x)
  {
    forall x
      ensures x in Keep(p, fs) ==> x in fs && p(x)
    {
      KeepMembers(p, fs, x);
    }
  }

  /** Whether the list is filtered before or after sorting makes no difference. */
  lemma FilterCommutesWithSort(loc: Locale, field: Field, ascending: bool, wanted: Option<string>, fs: seq<File>)
    requires Collates(loc) && DatesComparable(field, fs)
    ensures SortedFiles(loc, field, ascending, wanted, fs) ==
            Keep(HasLabel(wanted), SortedFiles(loc, field, ascending, None, fs))
  {
    ConsistentExactly(loc, field, ascending, fs);
    KeepSorted(By(loc, field, ascending), fs, HasLabel(wanted), fs);
    KeepsAll(HasLabel(None), fs);
  }

  lemma {:induction false} KeepsAll(p: File -> bool, fs: seq<File>)
    requires forall x :: x in fs ==> p(x)
    ensures Keep(p, fs) == fs
    decreases |fs|
  {
    if fs != [] {
      KeepsAll(p, fs[1..]);
    }
  }

  /**
   The list is a permutation of the labelled files, uploads on top and, but for the
   recent view, folders before files in either direction; what compares equal keeps
   the order it came in.
   */
  lemma BlocksComeInOrder(loc: Locale, field: Field, ascending: bool, wanted: Option<string>, fs: seq<File>,
                          k: nat, l: nat)
    requires Collates(loc) && DatesComparable(field, fs)
    requires k < l < |SortedFiles(loc, field, ascending, wanted, fs)|
    ensures var shown := SortedFiles(loc, field, ascending, wanted, fs);
            && multiset(shown) == multiset(Keep(HasLabel(wanted), fs))
            && (shown[l].uploading ==> shown[k].uploading)
            && (!field.Recent? && shown[k].uploading == shown[l].uploading && shown[l].isFolder ==> shown[k].isFolder)
            && Keep(TiedWith(By(loc, field, ascending), shown[k]), shown) ==
               Keep(TiedWith(By(loc, field, ascending), shown[k]), Keep(HasLabel(wanted), fs))
  {
    var cmp, part := By(loc, field, ascending), Keep(HasLabel(wanted), fs);
    ConsistentExactly(loc, field, ascending, fs);
    ConsistentOnPart(cmp, HasLabel(wanted), fs);
    SortIsStableSort(cmp, part);
    SortKeepsMembers(cmp, part);
    var shown := Sort(cmp, part);
    assert shown[k] in part;
    assert cmp(shown[k], shown[l]) <= 0;
  }

  /** A comparison in the direction asked for. */
  predicate InDirection(ascending: bool, c: int) {
    if ascending then c <= 0 else c >= 0
  }

  /** What it means that `a` stands before `b` in a block sorted by a field. */
  predicate StandsBefore(loc: Locale, field: Field, ascending: bool, a: File, b: File) {
    match field
    case Name => InDirection(ascending, loc.base(a.name, b.name))
    case Type =>
      var c := loc.plain(TypeKey(loc, a), TypeKey(loc, b));
      InDirection(ascending, c) && (c == 0 ==> InDirection(ascending, loc.plain(a.name, b.name)))
    case Size =>
      var x, y := if a.size.Some? then a.size.value else 0, if b.size.Some? then b.size.value else 0;
      if ascending then x <= y else x >= y
    case Modified =>
      a.updatedAt.Some? && b.updatedAt.Some? ==>
        if ascending then a.updatedAt.value <= b.updatedAt.value else a.updatedAt.value >= b.updatedAt.value
    case Recent => true
  }

  /**
   Within a block the list is sorted by the field chosen and in the direction chosen:
   names by locale, types by extension and then by name, a missing size as 0, and dates
   as points in time.
   */
  lemma FieldsInOrder(loc: Locale, field: Field, ascending: bool, wanted: Option<string>, fs: seq<File>, k: nat, l: nat)
    requires Collates(loc) && DatesComparable(field, fs)
    requires k < l < |SortedFiles(loc, field, ascending, wanted, fs)|
    ensures var shown := SortedFiles(loc, field, ascending, wanted, fs);
            SameBlock(shown[k], shown[l]) ==> StandsBefore(loc, field, ascending, shown[k], shown[l])
  {
    var cmp, part := By(loc, field, ascending), Keep(HasLabel(wanted), fs);
    ConsistentExactly(loc, field, ascending, fs);
    ConsistentOnPart(cmp, HasLabel(wanted), fs);
    SortOrders(cmp, part, part);
    var shown := Sort(cmp, part);
    assert cmp(shown[k], shown[l]) <= 0;
  }

  /** The labelled files are those that carry the label. */
  lemma LabelledExactly(loc: Locale, field: Field, ascending: bool, wanted: Option<string>, fs: seq<File>, x: File)
    ensures x in SortedFiles(loc, field, ascending, wanted, fs) <==>
            x in fs && (wanted.Some? ==> wanted.value in x.labels)
  {
    var part := Keep(HasLabel(wanted), fs);
    SortKeepsMembers(By(loc, field, ascending), part);
    KeepMembers(HasLabel(wanted), fs, x);
  }

  function IsUploading(): File -> bool {
    (f: File) => f.uploading
  }

  function IsSettled(): File -> bool {
    (f: File) => !f.uploading
  }

  /** No upload comes behind a settled file. */
  ghost predicate UploadsFirst(s: seq<File>) {
    forall k, l :: 0 <= k < l < |s| && s[l].uploading ==> s[k].uploading
  }

  lemma {:induction false} KeepsNone(p: File -> bool, s: seq<File>)
    requires forall x :: x in s ==> !p(x)
    ensures Keep(p, s) == []
    decreases |s|
  {
    if s != [] {
      KeepsNone(p, s[1..]);
    }
  }

  lemma {:induction false} Boundary(s: seq<File>) returns (n: nat)
    requires UploadsFirst(s)
    ensures n <= |s| && forall i :: 0 <= i < |s| ==> (s[i].uploading <==> i < n)
    decreases |s|
  {
    n := |s|;
    if s != [] && !s[|s| - 1].uploading {
      n := Boundary(s[..|s| - 1]);
    }
  }

  lemma KeptOfHalves(p: File -> bool, q: File -> bool, front: seq<File>, back: seq<File>)
    requires forall f :: f in front ==> p(f) && !q(f)
    requires forall f :: f in back ==> !p(f) && q(f)
    ensures Keep(p, front + back) == front && Keep(q, front + back) == back
  {
    KeepAppend(p, front, back);
    KeepAppend(q, front, back);
    KeepsAll(p, front);
    KeepsNone(p, back);
    KeepsNone(q, front);
    KeepsAll(q, back);
  }

  lemma PartitionOrdered(s: seq<File>)
    requires UploadsFirst(s)
    ensures s == Keep(IsUploading(), s) + Keep(IsSettled(), s)
  {
    var n := Boundary(s);
    KeptOfHalves(IsUploading(), IsSettled(), s[..n], s[n..]);
    assert s[..n] + s[n..] == s;
  }

  lemma RecentUploadsFirst(loc: Locale, ascending: bool, s: seq<File>)
    requires Ordered(By(loc, Recent, ascending), s)
    ensures UploadsFirst(s)
  {
    var cmp := By(loc, Recent, ascending);
    forall k, l | 0 <= k < l < |s| && s[l].uploading
      ensures s[k].uploading
    {
      assert cmp(s[k], s[l]) <= 0;
    }
  }

  /** The recent view is the uploads followed by the rest, each in the order the server sent them. */
  lemma RecentIsAPartition(loc: Locale, ascending: bool, wanted: Option<string>, fs: seq<File>)
    requires Collates(loc)
    ensures var part := Keep(HasLabel(wanted), fs);
            SortedFiles(loc, Recent, ascending, wanted, fs) == Keep(IsUploading(), part) + Keep(IsSettled(), part)
  {
    var cmp, part := By(loc, Recent, ascending), Keep(HasLabel(wanted), fs);
    var shown := Sort(cmp, part);
    ConsistentExactly(loc, Recent, ascending, part);
    SortOrders(cmp, part, part);
    RecentUploadsFirst(loc, ascending, shown);
    PartitionOrdered(shown);
    KeepSorted(cmp, part, IsUploading(), part);
    KeepSorted(cmp, part, IsSettled(), part);
    TiesWithin(cmp, IsUploading(), part);
    TiesWithin(cmp, IsSettled(), part);
  }

  lemma TiesWithin(cmp: Comparator, p: File -> bool, fs: seq<File>)
    requires forall x, y :: x in fs && y in fs && p(x) && p(y) ==> cmp(x, y) == 0
    ensures Sort(cmp, Keep(p, fs)) == Keep(p, fs)
  {
    forall x
      ensures x in Keep(p, fs) <==> x in fs && p(x)
    {
      KeepMembers(p, fs, x);
    }
    SortLeavesTies(cmp, Keep(p, fs));
  }

  // -------------------------------------------------------------------
  // Flipping the direction
  // -------------------------------------------------------------------

  function Reversed(s: seq<File>): seq<File> {
    if s == [] then [] else Reversed(s[1..]) + [s[0]]
  }

  lemma {:induction false} ReversedAt(s: seq<File>, k: nat)
    requires k < |s|
    ensures |Reversed(s)| == |s| && Reversed(s)[k] == s[|s| - 1 - k]
    decreases |s|
  {
    if |s| > 1 {
      ReversedAt(s[1..], if k < |s| - 1 then k else 0);
    }
  }

  lemma ReversedEverywhere(s: seq<File>)
    ensures |Reversed(s)| == |s| && forall k :: 0 <= k < |s| ==> Reversed(s)[k] == s[|s| - 1 - k]
  {
    if s != [] {
      ReversedAt(s, 0);
    }
    forall k | 0 <= k < |s|
      ensures Reversed(s)[k] == s[|s| - 1 - k]
    {
      ReversedAt(s, k);
    }
  }

  lemma {:induction false} ReversedMembers(s: seq<File>)
    ensures multiset(Reversed(s)) == multiset(s) && forall x :: x in Reversed(s) <==> x in s
    decreases |s|
  {
    if s != [] {
      ReversedMembers(s[1..]);
      assert s == [s[0]] + s[1..];
    }
    assert forall x :: x in Reversed(s) <==> x in s by { MembersOf(Reversed(s), multiset(s)); }
  }

  lemma {:induction false} KeepReversed(p: File -> bool, s: seq<File>)
    ensures Keep(p, Reversed(s)) == Reversed(Keep(p, s))
    decreases |s|
  {
    if s != [] {
      KeepReversed(p, s[1..]);
      KeepAppend(p, Reversed(s[1..]), [s[0]]);
      assert Keep(p, [s[0]]) == if p(s[0]) then [s[0]] else [];
      assert Keep(p, Reversed(s)) == Keep(p, Reversed(s[1..])) + if p(s[0]) then [s[0]] else [];
      if p(s[0]) {
        assert Keep(p, s)[1..] == Keep(p, s[1..]);
      } else {
        assert Keep(p, s) == Keep(p, s[1..]);
      }
    }
  }

  lemma {:induction false} ReversedTwice(s: seq<File>)
    ensures Reversed(Reversed(s)) == s
    decreases |s|
  {
    ReversedEverywhere(s);
    ReversedEverywhere(Reversed(s));
  }

  function InBlockOf(x: File): File -> bool {
    (f: File) => SameBlock(f, x)
  }

  lemma OppositeInBlock(loc: Locale, field: Field, fs: seq<File>, x: File)
    requires !field.Recent?
    ensures forall a, b :: a in Keep(InBlockOf(x), fs) && b in Keep(InBlockOf(x), fs) ==>
              By(loc, field, false)(a, b) == -By(loc, field, true)(a, b)
  {
    forall a, b | a in Keep(InBlockOf(x), fs) && b in Keep(InBlockOf(x), fs)
      ensures By(loc, field, false)(a, b) == -By(loc, field, true)(a, b)
    {
      KeepMembers(InBlockOf(x), fs, a);
      KeepMembers(InBlockOf(x), fs, b);
    }
  }

  /** For any two comparators that are opposite within a part of the list. */
  lemma FlippedPart(up: Comparator, down: Comparator, p: File -> bool, fs: seq<File>)
    requires Consistent(up, fs) && Consistent(down, fs)
    requires forall a, b :: a in Keep(p, fs) && b in Keep(p, fs) ==> down(a, b) == -up(a, b)
    ensures Keep(p, Sort(down, fs)) == Reversed(Keep(p, Sort(up, Reversed(fs))))
  {
    ReversedMembers(fs);
    KeepSorted(down, fs, p, fs);
    KeepSorted(up, fs, p, Reversed(fs));
    KeepReversed(p, fs);
    ConsistentOnPart(up, p, fs);
    ConsistentOnPart(down, p, fs);
    FlippedSort(up, down, Keep(p, fs));
  }

  /**
   Flipping the direction turns each block around on its own: a block, sorted
   descending, is the reverse of the same block of the reversed list, sorted ascending.
   */
  lemma FlipReversesEachBlock(loc: Locale, field: Field, fs: seq<File>, x: File)
    requires Collates(loc) && DatesComparable(field, fs) && !field.Recent?
    ensures Keep(InBlockOf(x), Sort(By(loc, field, false), fs)) ==
            Reversed(Keep(InBlockOf(x), Sort(By(loc, field, true), Reversed(fs))))
  {
    ConsistentExactly(loc, field, true, fs);
    ConsistentExactly(loc, field, false, fs);
    OppositeInBlock(loc, field, fs, x);
    FlippedPart(By(loc, field, true), By(loc, field, false), InBlockOf(x), fs);
  }

  lemma FlippedTies(up: Comparator, down: Comparator, fs: seq<File>, s: seq<File>, x: File)
    requires x in fs && (forall y :: y in s <==> y in fs)
    requires forall b :: b in fs ==> down(x, b) == -up(x, b)
    requires Keep(TiedWith(up, x), s) == Keep(TiedWith(up, x), Reversed(fs))
    ensures Keep(TiedWith(down, x), Reversed(s)) == Keep(TiedWith(down, x), fs)
  {
    KeepReversed(TiedWith(up, x), s);
    KeepReversed(TiedWith(up, x), fs);
    ReversedTwice(Keep(TiedWith(up, x), fs));
    ReversedMembers(s);
    SameKept(TiedWith(up, x), TiedWith(down, x), fs);
    SameKept(TiedWith(up, x), TiedWith(down, x), Reversed(s));
  }

  lemma FlippedOrder(up: Comparator, down: Comparator, s: seq<File>)
    requires Ordered(up, s) && forall a, b :: a in s && b in s ==> up(a, b) <= 0 ==> down(b, a) <= 0
    ensures Ordered(down, Reversed(s))
  {
    ReversedEverywhere(s);
    forall k, l | 0 <= k < l < |s|
      ensures down(Reversed(s)[k], Reversed(s)[l]) <= 0
    {
      var a, b := s[|s| - 1 - l], s[|s| - 1 - k];
      assert up(a, b) <= 0;
      assert a in s && b in s;
    }
  }

  lemma FlippedSort(up: Comparator, down: Comparator, fs: seq<File>)
    requires Consistent(up, fs) && Consistent(down, fs)
    requires forall a, b :: a in fs && b in fs ==> down(a, b) == -up(a, b)
    ensures Sort(down, fs) == Reversed(Sort(up, Reversed(fs)))
  {
    var s := Sort(up, Reversed(fs));
    ReversedMembers(fs);
    SortIsStableSort(up, Reversed(fs));
    assert forall x :: x in s <==> x in fs by { MembersOf(s, multiset(fs)); }
    ReversedMembers(s);
    forall x | x in fs
      ensures Keep(TiedWith(down, x), Reversed(s)) == Keep(TiedWith(down, x), fs)
    {
      FlippedTies(up, down, fs, s, x);
    }
    FlippedOrder(up, down, s);
    StableSortIsUnique(down, fs, Reversed(s));
  }

  lemma {:induction false} SameKept(p: File -> bool, q: File -> bool, s: seq<File>)
    requires forall x :: x in s ==> p(x) == q(x)
    ensures Keep(p, s) == Keep(q, s)
    decreases |s|
  {
    if s != [] {
      SameKept(p, q, s[1..]);
    }
  }
}
