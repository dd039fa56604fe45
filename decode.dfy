/** `getPostFromSearchResult`: keep the hits that decode as a `Post`, in order. */
module Decode {
  import opened Wrappers
  import opened Posts

  /** A search hit after the attempt to decode its source as a `Post`. */
  type Hit = Option<Post>

  /** The posts among `hits`, in the order of the hits. */
  function Decoded(hits: seq<Hit>): (posts: seq<Post>)
    ensures |posts| <= |hits|
  {
    if hits == [] then []
    else
      var last := hits[|hits| - 1];
      Decoded(hits[..|hits| - 1]) + (if last.Some? then [last.value] else [])
  }

  /** Decoding a concatenation decodes each part and concatenates: the filter keeps order. */
  lemma {:induction false} DecodedAppend(a: seq<Hit>, b: seq<Hit>)
    ensures Decoded(a + b) == Decoded(a) + Decoded(b)
    decreases |b|
  {
    if b != [] {
      assert (a + b)[..|a + b| - 1] == a + b[..|b| - 1];
      DecodedAppend(a, b[..|b| - 1]);
    } else {
      assert a + b == a;
    }
  }

  /** Each post appears as often as a hit that decoded to it: nothing is invented or lost. */
  lemma {:induction false} DecodedCounts(hits: seq<Hit>, p: Post)
    ensures multiset(Decoded(hits))[p] == multiset(hits)[Some(p)]
    decreases |hits|
  {
    if hits != [] {
      var init := hits[..|hits| - 1];
      assert hits == init + [hits[|hits| - 1]];
      DecodedCounts(init, p);
    }
  }

  /** A post is in the result exactly when some hit decoded to it. */
  lemma DecodedMembership(hits: seq<Hit>, p: Post)
    ensures p in Decoded(hits) <==> Some(p) in hits
  {
  }

  /** A hit that decodes lands right after the posts decoded from the hits before it. */
  lemma DecodedPosition(hits: seq<Hit>, i: nat)
    requires i < |hits| && hits[i].Some?
    ensures |Decoded(hits[..i])| < |Decoded(hits)|
    ensures Decoded(hits)[|Decoded(hits[..i])|] == hits[i].value
  {
    assert hits == hits[..i] + [hits[i]] + hits[i + 1..];
    DecodedAppend(hits[..i] + [hits[i]], hits[i + 1..]);
    DecodedAppend(hits[..i], [hits[i]]);
    assert Decoded([hits[i]]) == [hits[i].value] by {
      assert [hits[i]][..0] == [];
    }
  }

  /** Hits that all decode are returned unchanged, one post per hit. */
  lemma {:induction false} DecodedAllPosts(hits: seq<Hit>)
    requires forall i :: 0 <= i < |hits| ==> hits[i].Some?
    ensures |Decoded(hits)| == |hits|
    ensures forall i :: 0 <= i < |hits| ==> Decoded(hits)[i] == hits[i].value
    decreases |hits|
  {
    if hits != [] {
      DecodedAllPosts(hits[..|hits| - 1]);
    }
  }

  /** The loop of `getPostFromSearchResult`: append each decoded hit to `posts`. */
  method GetPostFromSearchResult(hits: seq<Hit>) returns (posts: seq<Post>)
    ensures posts == Decoded(hits)
  {
    posts := [];
    var i := 0;
    while i < |hits|
      invariant 0 <= i <= |hits|
      invariant posts == Decoded(hits[..i])
    {
      assert hits[..i + 1][..i] == hits[..i];
      if hits[i].Some? {
        posts := posts + [hits[i].value];
      }
      i := i + 1;
    }
    assert hits[..i] == hits;
  }
}
