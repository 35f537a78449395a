/**
 * Artifact names and their ordering: a sticker file is named `{order}_{sub}`
 * (sub 1 for the box sticker, 2.. for item stickers), `sort_key` turns a file
 * stem back into the pair, and the files are sorted stably by that pair.
 */
module Ordering {
  import opened Wrappers
  import opened Text

  type Key = (int, int)

  /** The key of a stem that does not have exactly two '_'-separated parts. */
  const Unsplit: Key := (999, 999)

  /** Lexicographic order on keys, as Python compares tuples. */
  predicate KeyLe(a: Key, b: Key) { a.0 < b.0 || (a.0 == b.0 && a.1 <= b.1) }

  /** Name of sub-artifact `sub` of the order at 1-based position `order`. */
  function ArtifactName(order: nat, sub: nat): string
  {
    NatToString(order) + "_" + NatToString(sub)
  }

  /**
   * `sort_key`: a stem of exactly two '_'-separated parts gives the pair of their
   * integer values, any other stem gives (999, 999); `None` is the ValueError
   * `int()` raises on a part that is not a digit string.
   */
  function SortKey(stem: string): (r: Option<Key>)
    ensures |Split(stem, '_')| != 2 ==> r == Some(Unsplit)
    ensures |Split(stem, '_')| == 2 ==>
      (r.Some? <==> IsDigitString(Split(stem, '_')[0]) && IsDigitString(Split(stem, '_')[1]))
    ensures r.Some? && |Split(stem, '_')| == 2 ==> r.value.0 >= 0 && r.value.1 >= 0
  {
    var parts := Split(stem, '_');
    if |parts| == 2 then
      match (ParseNat(parts[0]), ParseNat(parts[1]))
      case (Some(a), Some(b)) => Some((a, b))
      case _ => None
    else Some(Unsplit)
  }

  /** `sort_key` reads back the pair an artifact was named after. */
  lemma SortKeyOfName(order: nat, sub: nat)
    ensures SortKey(ArtifactName(order, sub)) == Some((order, sub))
  {
    var a, b := NatToString(order), NatToString(sub);
    assert '_' !in a by { assert forall i :: 0 <= i < |a| ==> IsDigit(a[i]); }
    assert '_' !in b by { assert forall i :: 0 <= i < |b| ==> IsDigit(b[i]); }
    SplitAround(a, b, '_');
    assert ArtifactName(order, sub) == a + ['_'] + b;
    ParseNatToString(order);
    ParseNatToString(sub);
  }

  /** Distinct (order, sub) pairs give distinct artifact names. */
  lemma ArtifactNameInjective(o1: nat, s1: nat, o2: nat, s2: nat)
    requires ArtifactName(o1, s1) == ArtifactName(o2, s2)
    ensures o1 == o2 && s1 == s2
  {
    SortKeyOfName(o1, s1);
    SortKeyOfName(o2, s2);
  }

  /** An artifact name is typed unchanged by the digit/underscore filter of the file-name dialog. */
  lemma TypedArtifactName(order: nat, sub: nat)
    ensures Typed(ArtifactName(order, sub)) == ArtifactName(order, sub)
    ensures Strip(ArtifactName(order, sub)) == ArtifactName(order, sub)
  {
    var a, b := NatToString(order), NatToString(sub);
    var name := ArtifactName(order, sub);
    assert name == a + ['_'] + b;
    assert forall i :: 0 <= i < |name| ==> Typeable(name[i]) by {
      forall i | 0 <= i < |name| ensures Typeable(name[i]) {
        if i < |a| { assert name[i] == a[i]; }
        else if i > |a| { assert name[i] == b[i - |a| - 1]; }
      }
    }
    TypedExactly(name);
    assert IsDigit(name[0]) && IsDigit(name[|name| - 1]);
    StripUntrimmed(name);
  }

  predicate AllKeyed(stems: seq<string>) { forall i :: 0 <= i < |stems| ==> SortKey(stems[i]).Some? }

  /** The key `sorted` compares by, once every stem is known to have one. */
  function KeyOf(stem: string): Key
  {
    match SortKey(stem)
    case Some(k) => k
    case None => Unsplit
  }

  /** Sorted by `key`, every pair of positions. */
  ghost predicate SortedBy(xs: seq<string>, key: string -> Key)
  {
    forall i, j :: 0 <= i < j < |xs| ==> KeyLe(key(xs[i]), key(xs[j]))
  }

  /** The elements whose key is `k`, in their order. */
  function WithKey(xs: seq<string>, key: string -> Key, k: Key): seq<string>
  {
    if xs == [] then []
    else (if key(xs[0]) == k then [xs[0]] else []) + WithKey(xs[1..], key, k)
  }

  /** Puts `x` in front of the first element whose key is not smaller. */
  function Insert(x: string, sorted: seq<string>, key: string -> Key): (r: seq<string>)
    ensures multiset(r) == multiset(sorted) + multiset{x}
  {
    if sorted == [] || KeyLe(key(x), key(sorted[0])) then [x] + sorted
    else
      assert sorted == [sorted[0]] + sorted[1..];
      [sorted[0]] + Insert(x, sorted[1..], key)
  }

  /** Every element's key is at least `lo`. */
  ghost predicate AllAtLeast(xs: seq<string>, key: string -> Key, lo: Key)
  {
    forall i :: 0 <= i < |xs| ==> KeyLe(lo, key(xs[i]))
  }

  /** A sequence with a head is sorted when its tail is sorted and no tail key is below the head's. */
  lemma SortedCons(h: string, t: seq<string>, key: string -> Key)
    requires SortedBy(t, key) && AllAtLeast(t, key, key(h))
    ensures SortedBy([h] + t, key)
  {
    var r := [h] + t;
    forall i, j | 0 <= i < j < |r| ensures KeyLe(key(r[i]), key(r[j])) {
      assert r[j] == t[j - 1];
      if i > 0 {
        assert r[i] == t[i - 1];
      }
    }
  }

  /** The tail of a sorted sequence is sorted and bounded below by the head. */
  lemma SortedUncons(xs: seq<string>, key: string -> Key)
    requires SortedBy(xs, key) && xs != []
    ensures SortedBy(xs[1..], key) && AllAtLeast(xs[1..], key, key(xs[0]))
  {
    var t := xs[1..];
    forall i, j | 0 <= i < j < |t| ensures KeyLe(key(t[i]), key(t[j])) {
      assert t[i] == xs[i + 1] && t[j] == xs[j + 1];
    }
    forall i | 0 <= i < |t| ensures KeyLe(key(xs[0]), key(t[i])) {
      assert t[i] == xs[i + 1];
    }
  }

  /** Inserting an element no smaller than `lo` keeps every key at least `lo`. */
  lemma {:induction false} InsertAtLeast(x: string, sorted: seq<string>, key: string -> Key, lo: Key)
    requires AllAtLeast(sorted, key, lo) && KeyLe(lo, key(x))
    ensures AllAtLeast(Insert(x, sorted, key), key, lo)
    decreases |sorted|
  {
    var r := Insert(x, sorted, key);
    if sorted == [] || KeyLe(key(x), key(sorted[0])) {
      forall i | 0 <= i < |r| ensures KeyLe(lo, key(r[i])) {
        if i > 0 { assert r[i] == sorted[i - 1]; }
      }
    } else {
      var tail := Insert(x, sorted[1..], key);
      assert AllAtLeast(sorted[1..], key, lo) by {
        forall i | 0 <= i < |sorted[1..]| ensures KeyLe(lo, key(sorted[1..][i])) {
          assert sorted[1..][i] == sorted[i + 1];
        }
      }
      InsertAtLeast(x, sorted[1..], key, lo);
      assert r == [sorted[0]] + tail;
      forall i | 0 <= i < |r| ensures KeyLe(lo, key(r[i])) {
        if i > 0 { assert r[i] == tail[i - 1]; }
      }
    }
  }

  /** Insertion keeps a sorted sequence sorted. */
  lemma {:induction false} InsertSorted(x: string, sorted: seq<string>, key: string -> Key)
    requires SortedBy(sorted, key)
    ensures SortedBy(Insert(x, sorted, key), key)
    decreases |sorted|
  {
    if sorted == [] {
      SortedCons(x, sorted, key);
    } else if KeyLe(key(x), key(sorted[0])) {
      SortedUncons(sorted, key);
      forall i | 0 <= i < |sorted| ensures KeyLe(key(x), key(sorted[i])) {
        if i > 0 { assert sorted[i] == sorted[1..][i - 1]; }
      }
      SortedCons(x, sorted, key);
    } else {
      SortedUncons(sorted, key);
      InsertSorted(x, sorted[1..], key);
      InsertAtLeast(x, sorted[1..], key, key(sorted[0]));
      SortedCons(sorted[0], Insert(x, sorted[1..], key), key);
    }
  }

  lemma {:induction false} InsertWithKey(x: string, sorted: seq<string>, key: string -> Key, k: Key)
    ensures WithKey(Insert(x, sorted, key), key, k) == (if key(x) == k then [x] else []) + WithKey(sorted, key, k)
    decreases |sorted|
  {
    var r := Insert(x, sorted, key);
    if sorted == [] || KeyLe(key(x), key(sorted[0])) {
      assert r[0] == x && r[1..] == sorted;
    } else {
      InsertWithKey(x, sorted[1..], key, k);
      assert r[0] == sorted[0] && r[1..] == Insert(x, sorted[1..], key);
    }
  }

  /** Stable insertion sort by `key`. */
  function SortBy(xs: seq<string>, key: string -> Key): (r: seq<string>)
    ensures multiset(r) == multiset(xs)
  {
    if xs == [] then []
    else
      assert xs == [xs[0]] + xs[1..];
      Insert(xs[0], SortBy(xs[1..], key), key)
  }

  lemma {:induction false} SortBySorted(xs: seq<string>, key: string -> Key)
    ensures SortedBy(SortBy(xs, key), key)
    decreases |xs|
  {
    if xs != [] {
      SortBySorted(xs[1..], key);
      InsertSorted(xs[0], SortBy(xs[1..], key), key);
    }
  }

  lemma {:induction false} SortByStable(xs: seq<string>, key: string -> Key, k: Key)
    ensures WithKey(SortBy(xs, key), key, k) == WithKey(xs, key, k)
    decreases |xs|
  {
    if xs != [] {
      SortByStable(xs[1..], key, k);
      InsertWithKey(xs[0], SortBy(xs[1..], key), key, k);
    }
  }

  /**
   * `sorted(files, key=sort_key)`: `None` when `sort_key` raises on some stem,
   * otherwise the stems in ascending key order.
   */
  function SortStems(stems: seq<string>): (r: Option<seq<string>>)
    ensures r.None? <==> exists i :: 0 <= i < |stems| && SortKey(stems[i]).None?
    ensures r.Some? ==> multiset(r.value) == multiset(stems)
  {
    if AllKeyed(stems) then Some(SortBy(stems, KeyOf)) else None
  }

  /** The sort is ascending in the key and stable: stems with equal keys keep their relative order. */
  lemma SortStemsOrdered(stems: seq<string>)
    requires AllKeyed(stems)
    ensures SortStems(stems).Some?
    ensures SortedBy(SortStems(stems).value, KeyOf)
    ensures forall k :: WithKey(SortStems(stems).value, KeyOf, k) == WithKey(stems, KeyOf, k)
  {
    SortBySorted(stems, KeyOf);
    forall k ensures WithKey(SortBy(stems, KeyOf), KeyOf, k) == WithKey(stems, KeyOf, k) {
      SortByStable(stems, KeyOf, k);
    }
  }

  lemma SortTwoBy(b: string, c: string, key: string -> Key)
    requires key(b) == (1, 2) && key(c) == (1, 1)
    ensures SortBy([b, c], key) == [c, b]
  {
    assert [b, c][1..] == [c];
    assert [c][1..] == [];
    assert SortBy([c], key) == [c];
    assert Insert(b, [c], key) == [c] + Insert(b, [], key);
  }

  lemma InsertLastOfTwo(a: string, c: string, b: string, key: string -> Key)
    requires !KeyLe(key(a), key(c)) && !KeyLe(key(a), key(b))
    ensures Insert(a, [c, b], key) == [c, b, a]
  {
    assert [c, b][1..] == [b];
    assert [b][1..] == [];
    assert Insert(a, [b], key) == [b] + Insert(a, [], key);
  }

  lemma SortThreeBy(a: string, b: string, c: string, key: string -> Key)
    requires key(a) == (2, 1) && key(b) == (1, 2) && key(c) == (1, 1)
    ensures SortBy([a, b, c], key) == [c, b, a]
  {
    assert [a, b, c][1..] == [b, c];
    SortTwoBy(b, c, key);
    InsertLastOfTwo(a, c, b, key);
  }

  lemma SortThree(a: string, b: string, c: string)
    requires SortKey(a) == Some((2, 1)) && SortKey(b) == Some((1, 2)) && SortKey(c) == Some((1, 1))
    ensures SortStems([a, b, c]) == Some([c, b, a])
  {
    assert AllKeyed([a, b, c]);
    SortThreeBy(a, b, c, KeyOf);
  }

  /** The example of the ordering: `2_1, 1_2, 1_1` sorts to `1_1, 1_2, 2_1`. */
  lemma SortExample()
    ensures SortStems([ArtifactName(2, 1), ArtifactName(1, 2), ArtifactName(1, 1)])
         == Some([ArtifactName(1, 1), ArtifactName(1, 2), ArtifactName(2, 1)])
  {
    SortKeyOfName(2, 1);
    SortKeyOfName(1, 2);
    SortKeyOfName(1, 1);
    SortThree(ArtifactName(2, 1), ArtifactName(1, 2), ArtifactName(1, 1));
  }

  /** A page of the merged document: the generated cover or the pages of one sticker file. */
  datatype Page = Cover | Sticker(stem: string)

  /** The sticker files, in their order, that exist with more than ten bytes. */
  function Present(stems: seq<string>, present: set<string>): (r: seq<string>)
    ensures forall s :: s in r <==> s in stems && s in present
  {
    if stems == [] then []
    else (if stems[0] in present then [stems[0]] else []) + Present(stems[1..], present)
  }

  /** Dropping elements keeps the rest in key order. */
  lemma {:induction false} PresentSorted(stems: seq<string>, present: set<string>, key: string -> Key)
    requires SortedBy(stems, key)
    ensures SortedBy(Present(stems, present), key)
    decreases |stems|
  {
    if stems != [] {
      var tail := Present(stems[1..], present);
      assert SortedBy(stems[1..], key) by {
        forall i, j | 0 <= i < j < |stems[1..]| ensures KeyLe(key(stems[1..][i]), key(stems[1..][j])) {
          assert stems[1..][i] == stems[i + 1] && stems[1..][j] == stems[j + 1];
        }
      }
      PresentSorted(stems[1..], present, key);
      if stems[0] in present {
        var r := [stems[0]] + tail;
        forall i, j | 0 <= i < j < |r| ensures KeyLe(key(r[i]), key(r[j])) {
          if i > 0 {
            assert r[i] == tail[i - 1] && r[j] == tail[j - 1];
          } else {
            assert r[j] == tail[j - 1] && r[j] in stems[1..];
            var k :| 0 <= k < |stems[1..]| && stems[1..][k] == r[j];
            assert stems[k + 1] == r[j];
          }
        }
      }
    }
  }

  function StickerPages(stems: seq<string>): (pages: seq<Page>)
    ensures |pages| == |stems|
    ensures forall i :: 0 <= i < |stems| ==> pages[i] == Sticker(stems[i])
  {
    if stems == [] then [] else [Sticker(stems[0])] + StickerPages(stems[1..])
  }

  /**
   * `merge_pdfs_by_order`: nothing to merge without stickers; a stem that
   * `sort_key` rejects aborts the merge; otherwise the cover (when it could be
   * made) followed by the existing sticker files in key order, or nothing when
   * that leaves no page.
   */
  function MergedPages(stickers: seq<string>, present: set<string>, coverMade: bool): (r: Option<seq<Page>>)
    ensures stickers == [] ==> r.None?
    ensures !AllKeyed(stickers) ==> r.None?
    ensures r.Some? ==> r.value != [] && (r.value[0] == Cover <==> coverMade)
  {
    if stickers == [] then None
    else
      match SortStems(stickers)
      case None => None
      case Some(sorted) =>
        var pages := (if coverMade then [Cover] else []) + StickerPages(Present(sorted, present));
        if pages == [] then None else Some(pages)
  }

  /** The sticker pages name exactly the given stems. */
  lemma StickerPagesHold(ps: seq<string>, s: string)
    ensures Sticker(s) in StickerPages(ps) <==> s in ps
  {
    var body := StickerPages(ps);
    if s in ps {
      var k :| 0 <= k < |ps| && ps[k] == s;
      assert body[k] == Sticker(s);
    }
    if Sticker(s) in body {
      var k :| 0 <= k < |body| && body[k] == Sticker(s);
      assert ps[k] == s;
    }
  }

  lemma PagesOf(xs: seq<string>, present: set<string>, coverMade: bool)
    ensures var pages := (if coverMade then [Cover] else []) + StickerPages(Present(xs, present));
      && (pages != [] <==> coverMade || exists s :: s in xs && s in present)
      && (forall s :: Sticker(s) in pages <==> s in xs && s in present)
  {
    var ps := Present(xs, present);
    var body := StickerPages(ps);
    forall s ensures Sticker(s) in body <==> s in xs && s in present {
      StickerPagesHold(ps, s);
    }
    if exists s :: s in xs && s in present {
      var s :| s in xs && s in present;
      assert Sticker(s) in body;
    }
    var pages := (if coverMade then [Cover] else []) + body;
    assert forall p :: p in pages && p != Cover ==> p in body;
  }

  /**
   * The merged document holds exactly the existing sticker files, and it exists
   * whenever there is a page to put in it.
   */
  lemma MergedPagesContents(stickers: seq<string>, present: set<string>, coverMade: bool)
    requires AllKeyed(stickers) && stickers != []
    ensures var r := MergedPages(stickers, present, coverMade);
      && (r.Some? <==> coverMade || exists s :: s in stickers && s in present)
      && (r.Some? ==> forall s :: Sticker(s) in r.value <==> s in stickers && s in present)
  {
    var sorted := SortBy(stickers, KeyOf);
    assert SortStems(stickers) == Some(sorted);
    assert forall s :: s in stickers <==> s in sorted by {
      assert forall s :: s in stickers <==> s in multiset(stickers);
      assert forall s :: s in sorted <==> s in multiset(sorted);
    }
    PagesOf(sorted, present, coverMade);
  }

  /**
   * After the optional cover, the merged document is the sticker pages of the
   * existing files in the sorted order, which is ascending in the key.
   */
  lemma MergedPagesOrdered(stickers: seq<string>, present: set<string>, coverMade: bool)
    requires AllKeyed(stickers) && MergedPages(stickers, present, coverMade).Some?
    ensures var pages := MergedPages(stickers, present, coverMade).value;
      var ps := Present(SortStems(stickers).value, present);
      && pages == (if coverMade then [Cover] else []) + StickerPages(ps)
      && SortedBy(ps, KeyOf)
  {
    SortStemsOrdered(stickers);
    PresentSorted(SortStems(stickers).value, present, KeyOf);
  }
}
