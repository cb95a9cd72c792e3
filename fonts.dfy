/** The memoised Go Regular font faces, keyed by point size. */
module Fonts {

  datatype Hinting = HintingNone | HintingVertical | HintingFull

  /** A font face: what `opentype.NewFace` is asked for. */
  datatype Face = Face(size: real, dpi: real, hinting: Hinting)

  const FaceDpi: real := 72.0

  /** The face built from the embedded Go Regular font at `size` points
      (72 dpi, full hinting); parsing and face creation are not modelled. */
  function NewFace(size: real): (face: Face)
    ensures face.size == size && face.dpi == FaceDpi && face.hinting == HintingFull
  {
    Face(size, FaceDpi, HintingFull)
  }

  /** The package-level cache: sizes seen so far and the faces built for them,
      with a count of how often the font file was parsed. */
  class FontCache {
    var faces: map<real, Face>
    var parses: nat

    /** Every cached face is the one built for its key, and the font was parsed
        once per cached size. */
    ghost predicate Valid()
      reads this
    {
      (forall size :: size in faces ==> faces[size] == NewFace(size)) &&
      parses == |faces.Keys|
    }

    constructor ()
      ensures Valid() && faces == map[] && parses == 0
    {
      faces := map[];
      parses := 0;
    }

    /** The face for `size`: the cached one on a hit; on a miss, parse the font,
        build the face and remember it under `size`. */
    method GoRegularFace(size: real) returns (face: Face)
      requires Valid()
      modifies this
      ensures Valid()
      ensures face == NewFace(size)
      ensures faces.Keys == old(faces.Keys) + {size}
      ensures size in old(faces) ==>
        face == old(faces)[size] && faces == old(faces) && parses == old(parses)
      ensures size !in old(faces) ==>
        faces == old(faces)[size := face] && parses == old(parses) + 1
    {
      if size in faces {
        face := faces[size];
        return;
      }
      parses := parses + 1;
      face := NewFace(size);
      assert (faces[size := face]).Keys == faces.Keys + {size};
      faces := faces[size := face];
    }

    /** Looks up `sizes` in turn, as the program does when it asks for its
        title, label and description faces. The font is parsed exactly
        `Misses(old(faces.Keys), sizes)` times, and afterwards every size
        looked up is cached. */
    method LookUpAll(sizes: seq<real>)
      requires Valid()
      modifies this
      ensures Valid()
      ensures faces.Keys == old(faces.Keys) + SizesIn(sizes)
      ensures parses == old(parses) + Misses(old(faces.Keys), sizes)
    {
      for i := 0 to |sizes|
        invariant Valid()
        invariant faces.Keys == old(faces.Keys) + SizesIn(sizes[..i])
        invariant parses + Misses(faces.Keys, sizes[i..]) ==
          old(parses) + Misses(old(faces.Keys), sizes)
      {
        ghost var before, parsed := faces.Keys, parses;
        var _ := GoRegularFace(sizes[i]);
        LookUpStep(old(faces.Keys), old(parses), sizes, i, before, parsed, faces.Keys, parses);
      }
      assert sizes[..|sizes|] == sizes;
    }
  }

  /** How many times the font is parsed when the sizes `sizes` are looked up in
      turn, starting from a cache that holds the sizes `cached`: one parse per
      miss, and a miss caches its size. */
  function Misses(cached: set<real>, sizes: seq<real>): nat
    decreases sizes
  {
    if sizes == [] then 0
    else (if sizes[0] in cached then 0 else 1) + Misses(cached + {sizes[0]}, sizes[1..])
  }

  /** Any run of lookups parses the font exactly once per distinct size that was
      not already cached, so at most once per distinct size. */
  lemma {:induction false} MissesAreDistinctNewSizes(cached: set<real>, sizes: seq<real>)
    ensures Misses(cached, sizes) == |SizesIn(sizes) - cached|
    ensures Misses(cached, sizes) <= |SizesIn(sizes)|
    decreases sizes
  {
    var distinct := SizesIn(sizes);
    if sizes != [] {
      var rest := SizesIn(sizes[1..]);
      MissesAreDistinctNewSizes(cached + {sizes[0]}, sizes[1..]);
      assert distinct == rest + {sizes[0]};
      if sizes[0] in cached {
        assert distinct - cached == rest - (cached + {sizes[0]});
      } else {
        assert distinct - cached == (rest - (cached + {sizes[0]})) + {sizes[0]};
        assert sizes[0] !in rest - (cached + {sizes[0]});
      }
    }
    assert distinct - cached <= distinct;
    SubsetCard(distinct - cached, distinct);
  }

  /** The loop step of `LookUpAll`: looking up `sizes[i]` moves one size from
      the remaining run into the cache and the parse count. */
  lemma LookUpStep(k0: set<real>, p0: nat, sizes: seq<real>, i: nat,
                   before: set<real>, parsed: nat, after: set<real>, parsedAfter: nat)
    requires i < |sizes|
    requires before == k0 + SizesIn(sizes[..i])
    requires parsed + Misses(before, sizes[i..]) == p0 + Misses(k0, sizes)
    requires after == before + {sizes[i]}
    requires parsedAfter == parsed + (if sizes[i] in before then 0 else 1)
    ensures after == k0 + SizesIn(sizes[..i + 1])
    ensures parsedAfter + Misses(after, sizes[i + 1..]) == p0 + Misses(k0, sizes)
  {
    MissStep(before, sizes[i..]);
    assert sizes[i..][1..] == sizes[i + 1..];
    SizesInSnoc(sizes[..i], sizes[i]);
    assert sizes[..i + 1] == sizes[..i] + [sizes[i]];
  }

  /** One lookup's share of `Misses`: one parse exactly when its size is not cached. */
  lemma MissStep(cached: set<real>, sizes: seq<real>)
    requires sizes != []
    ensures Misses(cached, sizes) ==
      (if sizes[0] in cached then 0 else 1) + Misses(cached + {sizes[0]}, sizes[1..])
  {
  }

  /** The distinct sizes of a run of lookups. */
  function SizesIn(sizes: seq<real>): set<real> {
    set s | s in sizes
  }

  lemma SizesInSnoc(sizes: seq<real>, size: real)
    ensures SizesIn(sizes + [size]) == SizesIn(sizes) + {size}
  {
    assert forall s :: s in sizes + [size] <==> s in sizes || s == size;
  }

  lemma SubsetCard(a: set<real>, b: set<real>)
    requires a <= b
    ensures |a| <= |b|
  {
    assert b == a + (b - a);
  }
}
