/**
 * The static photo catalog (`PhotoManager.sections`): an ordered table of
 * named sections, each an ordered list of photos, together with the
 * row-major flattening a gallery walks when it lists every photo, and
 * `PhotoAt`, the lookup the gallery performs for an index path.
 */
module Catalog {
  import opened Models

  datatype PhotoSection = PhotoSection(name: string, photos: seq<Photo>)

  /** The hard-coded catalog, in display order. */
  function Sections(): seq<PhotoSection>
  {
    [ PhotoSection("Section 1", [Photo("1.jpg"), Photo("2.jpg")]),
      PhotoSection("Section 2", [Photo("3.jpg"), Photo("4.jpg"), Photo("5.jpg")]),
      PhotoSection("Section 3", [Photo("6.jpg"), Photo("7.jpg")]) ]
  }

  /** Number of photos in all sections together. */
  function PhotoCount(ss: seq<PhotoSection>): nat
  {
    if |ss| == 0 then 0 else |ss[0].photos| + PhotoCount(ss[1..])
  }

  /**
   * Every photo of every section, section by section, in order. The gallery
   * never builds this list; it is the reference against which index-path
   * lookup and the catalog's ordering are stated.
   */
  function Flatten(ss: seq<PhotoSection>): (r: seq<Photo>)
    ensures |r| == PhotoCount(ss)
    ensures |ss| > 0 ==> r[..|ss[0].photos|] == ss[0].photos
  {
    if |ss| == 0 then [] else ss[0].photos + Flatten(ss[1..])
  }

  /** Position in `Flatten(ss)` of the first photo of section `s`. */
  function Offset(ss: seq<PhotoSection>, s: nat): nat
    requires s <= |ss|
  {
    if s == 0 then 0 else |ss[0].photos| + Offset(ss[1..], s - 1)
  }

  /** Names of a list of photos, in order. */
  function Names(ps: seq<Photo>): (r: seq<string>)
    ensures |r| == |ps|
    ensures forall i :: 0 <= i < |ps| ==> r[i] == ps[i].name
  {
    if |ps| == 0 then [] else [ps[0].name] + Names(ps[1..])
  }

  ghost predicate Distinct(xs: seq<string>)
  {
    forall i, j :: 0 <= i < j < |xs| ==> xs[i] != xs[j]
  }

  /** True when `(s, r)` names an existing photo: section `s`, row `r`. */
  predicate ValidIndex(ss: seq<PhotoSection>, s: int, r: int)
  {
    0 <= s < |ss| && 0 <= r < |ss[s].photos|
  }

  /**
   * The photo at index path `(s, r)`, as the gallery looks it up (section
   * first, then row). The gallery traps on an invalid path; here that is
   * the precondition. The photo found is the one the flattened catalog
   * holds at the section's offset plus the row.
   */
  function PhotoAt(ss: seq<PhotoSection>, s: int, r: int): (p: Photo)
    requires ValidIndex(ss, s, r)
    ensures p in ss[s].photos
    ensures Offset(ss, s) + r < |Flatten(ss)| && Flatten(ss)[Offset(ss, s) + r] == p
  {
    FlattenAt(ss, s, r);
    ss[s].photos[r]
  }

  /** A section starts where the previous sections' photos end. */
  lemma {:induction false} OffsetAfterSection(ss: seq<PhotoSection>, s: nat)
    requires s < |ss|
    ensures Offset(ss, s) + |ss[s].photos| == Offset(ss, s + 1)
    ensures Offset(ss, s + 1) <= PhotoCount(ss)
  {
    if s > 0 {
      OffsetAfterSection(ss[1..], s - 1);
    }
  }

  /** Sections occupy disjoint, increasing ranges of the flattened list. */
  lemma {:induction false} OffsetGap(ss: seq<PhotoSection>, s1: nat, s2: nat)
    requires s1 < s2 <= |ss|
    ensures Offset(ss, s1) + |ss[s1].photos| <= Offset(ss, s2)
    decreases s2 - s1
  {
    OffsetAfterSection(ss, s1);
    if s1 + 1 < s2 {
      OffsetGap(ss, s1 + 1, s2);
      OffsetAfterSection(ss, s1 + 1);
    }
  }

  /** Looking up `(s, r)` agrees with position `Offset(s) + r` of the flattening. */
  lemma {:induction false} FlattenAt(ss: seq<PhotoSection>, s: int, r: int)
    requires ValidIndex(ss, s, r)
    ensures Offset(ss, s) + r < |Flatten(ss)|
    ensures Flatten(ss)[Offset(ss, s) + r] == ss[s].photos[r]
  {
    OffsetAfterSection(ss, s);
    if s > 0 {
      FlattenAt(ss[1..], s - 1, r);
      assert ss[1..][s - 1] == ss[s];
    }
  }

  /** Distinct index paths land on distinct positions of the flattening. */
  lemma PositionInjective(ss: seq<PhotoSection>, s1: int, r1: int, s2: int, r2: int)
    requires ValidIndex(ss, s1, r1) && ValidIndex(ss, s2, r2)
    requires (s1, r1) != (s2, r2)
    ensures Offset(ss, s1) + r1 != Offset(ss, s2) + r2
  {
    if s1 < s2 {
      OffsetGap(ss, s1, s2);
    } else if s2 < s1 {
      OffsetGap(ss, s2, s1);
    }
  }

  /**
   * If the flattened names are pairwise distinct, then so are the photos at
   * any two different index paths.
   */
  lemma DistinctIndexPaths(ss: seq<PhotoSection>, s1: int, r1: int, s2: int, r2: int)
    requires Distinct(Names(Flatten(ss)))
    requires ValidIndex(ss, s1, r1) && ValidIndex(ss, s2, r2)
    requires (s1, r1) != (s2, r2)
    ensures PhotoAt(ss, s1, r1).name != PhotoAt(ss, s2, r2).name
  {
    FlattenAt(ss, s1, r1);
    FlattenAt(ss, s2, r2);
    PositionInjective(ss, s1, r1, s2, r2);
    var i, j := Offset(ss, s1) + r1, Offset(ss, s2) + r2;
    var ns := Names(Flatten(ss));
    if i < j {
      assert ns[i] != ns[j];
    } else {
      assert ns[j] != ns[i];
    }
  }

  /** Three sections, named and sized as the table lists them. */
  lemma CatalogShape()
    ensures |Sections()| == 3
    ensures Sections()[0].name == "Section 1" && |Sections()[0].photos| == 2
    ensures Sections()[1].name == "Section 2" && |Sections()[1].photos| == 3
    ensures Sections()[2].name == "Section 3" && |Sections()[2].photos| == 2
    ensures PhotoCount(Sections()) == 7
  {
  }

  /** Flattened in order, the catalog reads "1.jpg" through "7.jpg". */
  lemma CatalogOrder()
    ensures Names(Flatten(Sections()))
         == ["1.jpg", "2.jpg", "3.jpg", "4.jpg", "5.jpg", "6.jpg", "7.jpg"]
    ensures Distinct(Names(Flatten(Sections())))
  {
    var ss := Sections();
    assert Flatten(ss) == ss[0].photos + Flatten(ss[1..]);
    assert Flatten(ss[1..]) == ss[1].photos + Flatten(ss[2..]);
    assert Flatten(ss[2..]) == ss[2].photos + Flatten(ss[3..]);
    var ns := Names(Flatten(ss));
    assert forall i :: 0 <= i < 7 ==> ns[i][0] == "1234567"[i];
  }

  /** No two index paths of the catalog hold photos with the same name. */
  lemma CatalogNamesDistinct()
    ensures forall s1, r1, s2, r2 ::
              ValidIndex(Sections(), s1, r1) && ValidIndex(Sections(), s2, r2) && (s1, r1) != (s2, r2)
              ==> PhotoAt(Sections(), s1, r1).name != PhotoAt(Sections(), s2, r2).name
  {
    CatalogOrder();
    forall s1, r1, s2, r2 |
      ValidIndex(Sections(), s1, r1) && ValidIndex(Sections(), s2, r2) && (s1, r1) != (s2, r2)
      ensures PhotoAt(Sections(), s1, r1).name != PhotoAt(Sections(), s2, r2).name
    {
      DistinctIndexPaths(Sections(), s1, r1, s2, r2);
    }
  }

  /** Index path (1, 1) — second section, second row — is "4.jpg". */
  lemma SecondPhotoOfSecondSection()
    ensures ValidIndex(Sections(), 1, 1)
    ensures PhotoAt(Sections(), 1, 1) == Photo("4.jpg")
    ensures Sections()[1].photos == [Photo("3.jpg"), Photo("4.jpg"), Photo("5.jpg")]
  {
  }
}
