/** The category carousel of the home page: how many categories a slide
    holds at a given viewport width, and how the list is cut into slides. */
module CategoriesCarousel {
  import opened Models

  /** `handleResize`: 1 up to 576 pixels, 2 up to 768, 3 above. */
  function ItemsPerSlide(width: int): (n: nat)
    ensures 1 <= n <= 3
    ensures n == 1 <==> width <= 576
    ensures n == 3 <==> width > 768
  {
    if width <= 576 then 1 else if width <= 768 then 2 else 3
  }

  /** Every slide width yields a whole Bootstrap column (`col-${12/n}`). */
  lemma ColumnsAreWhole(width: int)
    ensures 12 % ItemsPerSlide(width) == 0
    ensures (12 / ItemsPerSlide(width)) * ItemsPerSlide(width) == 12
  {
  }

  /** The slides: consecutive runs of `n` categories, the last one shorter
      when the list does not divide evenly. */
  function Chunks(cs: seq<Category>, n: nat): seq<seq<Category>>
    requires n > 0
    decreases |cs|
  {
    if cs == [] then []
    else if |cs| <= n then [cs]
    else [cs[..n]] + Chunks(cs[n..], n)
  }

  function Flatten(xss: seq<seq<Category>>): seq<Category> {
    if xss == [] then [] else xss[0] + Flatten(xss[1..])
  }

  /** The slides, read in order, are the category list. */
  lemma {:induction false} ChunksFlatten(cs: seq<Category>, n: nat)
    requires n > 0
    ensures Flatten(Chunks(cs, n)) == cs
    decreases |cs|
  {
    var k := Chunks(cs, n);
    if |cs| > n {
      ChunksFlatten(cs[n..], n);
      assert k == [cs[..n]] + Chunks(cs[n..], n);
      assert k[0] == cs[..n] && k[1..] == Chunks(cs[n..], n);
      assert Flatten(k) == cs[..n] + cs[n..];
      assert cs == cs[..n] + cs[n..];
    } else if cs != [] {
      assert k == [cs];
      assert Flatten(k) == cs + Flatten([]);
    }
  }

  /** Every slide but the last holds exactly `n` categories; the last holds
      between 1 and `n`; and the number of slides is `ceil(len / n)`: none for
      an empty list, otherwise the least count whose slides of `n` cover the
      list. */
  lemma {:induction false} ChunkSizes(cs: seq<Category>, n: nat)
    requires n > 0
    ensures var k := Chunks(cs, n);
            (|k| == 0 <==> cs == []) &&
            (|k| - 1) * n < |cs| + (if cs == [] then n else 0) && |cs| <= |k| * n &&
            (forall i :: 0 <= i < |k| - 1 ==> |k[i]| == n) &&
            (|k| > 0 ==> 1 <= |k[|k| - 1]| <= n)
    decreases |cs|
  {
    var k := Chunks(cs, n);
    if |cs| > n {
      ChunkSizes(cs[n..], n);
      var t := Chunks(cs[n..], n);
      assert k == [cs[..n]] + t;
      assert |k| == |t| + 1;
      assert (|t| - 1) * n < |cs| - n <= |t| * n;
      assert (|k| - 1) * n == |t| * n;
      assert |k| * n == |t| * n + n;
      forall i | 0 <= i < |k| - 1 ensures |k[i]| == n {
        if i > 0 { assert k[i] == t[i - 1]; }
      }
    }
  }

  /** The chunking loop of the page: slices of `n` from index 0 in steps of
      `n`. */
  method Chunk(cs: seq<Category>, n: nat) returns (chunks: seq<seq<Category>>)
    requires n > 0
    ensures chunks == Chunks(cs, n)
  {
    chunks := [];
    var i := 0;
    while i < |cs|
      invariant 0 <= i
      invariant i < |cs| ==> chunks + Chunks(cs[i..], n) == Chunks(cs, n)
      invariant i >= |cs| ==> chunks == Chunks(cs, n)
      decreases |cs| - i
    {
      var end := if i + n < |cs| then i + n else |cs|;
      if i + n < |cs| {
        assert cs[i..][..n] == cs[i..end] && cs[i..][n..] == cs[i + n..];
        assert Chunks(cs[i..], n) == [cs[i..end]] + Chunks(cs[i + n..], n);
      } else {
        assert cs[i..] == cs[i..end];
        assert Chunks(cs[i..], n) == [cs[i..end]];
      }
      chunks := chunks + [cs[i..end]];
      i := i + n;
    }
    if cs == [] {
      assert Chunks(cs, n) == [];
    }
  }

  /** The carousel shows its arrows only with more than one slide, that is
      when there are more categories than a slide holds. */
  predicate ShowsControls(chunks: seq<seq<Category>>) {
    |chunks| > 1
  }

  lemma ControlsWhenOverflowing(cs: seq<Category>, n: nat)
    requires n > 0
    ensures ShowsControls(Chunks(cs, n)) <==> |cs| > n
  {
    if |cs| > n {
      assert cs[n..] != [];
      assert |Chunks(cs[n..], n)| > 0;
    }
  }
}
