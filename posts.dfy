/** The client-side search: the `Post` record, the `Filters` object and
    `filterPostsClientSide`, a stable filter whose per-post predicate is the
    chain of three early-return guards. */
module Posts {
  import opened Wrappers
  import opened Truthiness
  import opened Text

  /** A listing as the search bar sees it. The field the source calls `type`
      is `postType` here. Other properties of a post play no part in the
      search. */
  datatype Post = Post(title: string, postType: string, citySlug: string)

  /** The search criteria; a field that is absent or empty switches its
      guard off. */
  datatype Filters = Filters(query: Option<string>, category: Option<string>, city: Option<string>)

  /** The declarative reading of the three guards: every ACTIVE guard holds.
      A truthy query must occur, lower-cased, in the lower-cased title; a
      truthy category must equal the post's type; a truthy city must equal
      the post's city slug. */
  ghost predicate SatisfiesActiveGuards(p: Post, f: Filters)
  {
    && (Truthy(f.query) ==> exists i :: OccursAt(Lower(p.title), Lower(f.query.value), i))
    && (Truthy(f.category) ==> p.postType == f.category.value)
    && (Truthy(f.city) ==> p.citySlug == f.city.value)
  }

  /** The callback given to `posts.filter`: the text guard, then the category
      guard, then the city guard, each returning `false` early. */
  predicate Keep(p: Post, f: Filters)
    ensures Keep(p, f) <==>
              && (Truthy(f.query) ==> Includes(Lower(p.title), Lower(f.query.value)))
              && (Truthy(f.category) ==> p.postType == f.category.value)
              && (Truthy(f.city) ==> p.citySlug == f.city.value)
  {
    if Truthy(f.query) && !Includes(Lower(p.title), Lower(f.query.value)) then false
    else if Truthy(f.category) && p.postType != f.category.value then false
    else if Truthy(f.city) && p.citySlug != f.city.value then false
    else true
  }

  /** The early-return chain accepts a post exactly when every active guard
      holds of it. */
  lemma KeepMeansActiveGuards(p: Post, f: Filters)
    ensures Keep(p, f) <==> SatisfiesActiveGuards(p, f)
  {
    if Truthy(f.query) {
      var hay, needle := Lower(p.title), Lower(f.query.value);
      assert Includes(hay, needle) <==> exists i :: OccursAt(hay, needle, i);
    }
  }

  /** `filterPostsClientSide(posts, filters)`. The result holds exactly the
      posts of the input that pass the guards (soundness and completeness),
      and never more posts than the input. */
  function FilterClientSide(posts: seq<Post>, f: Filters): (r: seq<Post>)
    ensures |r| <= |posts|
    ensures forall p :: p in r ==> p in posts && Keep(p, f)
    ensures forall p :: p in posts && Keep(p, f) ==> p in r
  {
    if posts == [] then []
    else
      var rest := FilterClientSide(posts[1..], f);
      assert posts == [posts[0]] + posts[1..];
      if Keep(posts[0], f) then [posts[0]] + rest else rest
  }

  /** Each passing post is kept as often as it occurs in the input, and a
      failing post not at all: duplicates are neither merged nor invented. */
  lemma {:induction false} FilterCounts(posts: seq<Post>, f: Filters)
    ensures forall p :: multiset(FilterClientSide(posts, f))[p] == if Keep(p, f) then multiset(posts)[p] else 0
  {
    if posts != [] {
      FilterCounts(posts[1..], f);
      assert posts == [posts[0]] + posts[1..];
    }
  }

  /** Soundness and completeness against the declarative guards: a post is
      in the result exactly when it is in the input and passes every active
      guard. */
  lemma FilterSoundAndComplete(posts: seq<Post>, f: Filters)
    ensures forall p :: p in FilterClientSide(posts, f) <==> p in posts && SatisfiesActiveGuards(p, f)
  {
    forall p | p in posts {
      KeepMeansActiveGuards(p, f);
    }
  }

  /** `idx` lists, in increasing order, the positions in `posts` that `r`
      was taken from. */
  ghost predicate IsStableSelection(r: seq<Post>, posts: seq<Post>, idx: seq<nat>)
  {
    && |idx| == |r|
    && (forall k :: 0 <= k < |idx| ==> idx[k] < |posts| && r[k] == posts[idx[k]])
    && (forall k, l :: 0 <= k < l < |idx| ==> idx[k] < idx[l])
  }

  /** Every position moved one step to the right. */
  function Shift(idx: seq<nat>): (r: seq<nat>)
    ensures |r| == |idx|
    ensures forall k :: 0 <= k < |idx| ==> r[k] == idx[k] + 1
  {
    seq(|idx|, k requires 0 <= k < |idx| => idx[k] + 1)
  }

  /** A selection from the tail of `posts` is a selection from `posts` once
      its positions are shifted; the first post may then be put in front. */
  lemma ShiftSelection(r: seq<Post>, posts: seq<Post>, idx: seq<nat>)
    requires posts != []
    requires IsStableSelection(r, posts[1..], idx)
    ensures IsStableSelection(r, posts, Shift(idx))
    ensures IsStableSelection([posts[0]] + r, posts, [0] + Shift(idx))
  {
  }

  /** The positions picked from the tail, shifted, with position 0 added when
      the first post passes, are exactly the positions of passing posts. */
  lemma ShiftPositions(posts: seq<Post>, f: Filters, tail: seq<nat>)
    requires posts != []
    requires forall i :: 0 <= i < |posts| - 1 ==> (i in tail <==> Keep(posts[1..][i], f))
    ensures forall i :: 0 <= i < |posts| ==>
      (i in (if Keep(posts[0], f) then [0] + Shift(tail) else Shift(tail)) <==> Keep(posts[i], f))
  {
    var s := Shift(tail);
    forall i | 1 <= i < |posts| ensures i in s <==> Keep(posts[i], f) {
      assert posts[i] == posts[1..][i - 1];
      if i - 1 in tail {
        var k :| 0 <= k < |tail| && tail[k] == i - 1;
        assert s[k] == i;
      }
    }
    assert 0 !in s;
  }

  /** The result is a subsequence of the input in the input's order, and the
      positions it is taken from are exactly those of the posts that pass
      the guards. */
  lemma {:induction false} FilterIsStable(posts: seq<Post>, f: Filters) returns (idx: seq<nat>)
    ensures IsStableSelection(FilterClientSide(posts, f), posts, idx)
    ensures forall i :: 0 <= i < |posts| ==> (i in idx <==> Keep(posts[i], f))
  {
    if posts == [] {
      idx := [];
    } else {
      var rest := FilterClientSide(posts[1..], f);
      var tail := FilterIsStable(posts[1..], f);
      ShiftSelection(rest, posts, tail);
      ShiftPositions(posts, f, tail);
      idx := if Keep(posts[0], f) then [0] + Shift(tail) else Shift(tail);
      assert FilterClientSide(posts, f) == if Keep(posts[0], f) then [posts[0]] + rest else rest;
    }
  }

  /** Every position moved one step to the left; none may be 0. */
  function Unshift(idx: seq<nat>): (r: seq<nat>)
    requires forall k :: 0 <= k < |idx| ==> idx[k] >= 1
    ensures |r| == |idx|
    ensures forall k :: 0 <= k < |idx| ==> r[k] == idx[k] - 1
  {
    seq(|idx|, k requires 0 <= k < |idx| => idx[k] - 1)
  }

  /** When the first post passes, a stable selection of the passing
      positions starts at position 0. */
  lemma SelectionStartsAtHead(r: seq<Post>, posts: seq<Post>, idx: seq<nat>, f: Filters)
    requires posts != [] && Keep(posts[0], f)
    requires IsStableSelection(r, posts, idx)
    requires forall i :: 0 <= i < |posts| ==> (i in idx <==> Keep(posts[i], f))
    ensures idx != [] && idx[0] == 0
  {
    assert 0 in idx;
    var k0 :| 0 <= k0 < |idx| && idx[k0] == 0;
    assert idx[0] == 0;
  }

  /** Dropping the selected head leaves a selection of the remaining
      posts of `r`. */
  lemma DropSelectedHead(r: seq<Post>, posts: seq<Post>, idx: seq<nat>)
    requires idx != [] && idx[0] == 0
    requires IsStableSelection(r, posts, idx)
    ensures r != [] && r == [posts[0]] + r[1..]
    ensures IsStableSelection(r[1..], posts, idx[1..])
    ensures 0 !in idx[1..]
  {
  }

  /** The positions after the head are the passing positions other than 0. */
  lemma DroppedHeadPositions(posts: seq<Post>, idx: seq<nat>, f: Filters)
    requires idx != [] && idx[0] == 0
    requires forall i :: 0 <= i < |posts| ==> (i in idx <==> Keep(posts[i], f))
    requires forall k, l :: 0 <= k < l < |idx| ==> idx[k] < idx[l]
    ensures forall i :: 0 <= i < |posts| ==> (i in idx[1..] <==> i != 0 && Keep(posts[i], f))
  {
    var idx' := idx[1..];
    forall i | 0 <= i < |posts| ensures i in idx' <==> i != 0 && Keep(posts[i], f) {
      if i in idx' {
        var k :| 0 <= k < |idx'| && idx'[k] == i;
        assert idx[k + 1] == i;
      }
      if i != 0 && i in idx {
        var k :| 0 <= k < |idx| && idx[k] == i;
        assert idx'[k - 1] == i;
      }
    }
  }

  /** The converse of `FilterIsStable`, which makes the two conditions a
      definition of the filter: any subsequence of `posts`, taken in order at
      exactly the positions of the passing posts, is the filter's result. */
  lemma {:induction false} StableSelectionIsFilter(r: seq<Post>, posts: seq<Post>, idx: seq<nat>, f: Filters)
    requires IsStableSelection(r, posts, idx)
    requires forall i :: 0 <= i < |posts| ==> (i in idx <==> Keep(posts[i], f))
    ensures r == FilterClientSide(posts, f)
  {
    assert idx == [] || idx[0] < |posts|;
    if posts != [] {
      if Keep(posts[0], f) {
        SelectionStartsAtHead(r, posts, idx, f);
        DropSelectedHead(r, posts, idx);
        DroppedHeadPositions(posts, idx, f);
        var r', idx' := r[1..], idx[1..];
        UnshiftSelection(r', posts, idx');
        UnshiftPositions(posts, idx', f);
        StableSelectionIsFilter(r', posts[1..], Unshift(idx'), f);
      } else {
        assert 0 !in idx;
        UnshiftSelection(r, posts, idx);
        UnshiftPositions(posts, idx, f);
        StableSelectionIsFilter(r, posts[1..], Unshift(idx), f);
      }
    }
  }

  /** A selection avoiding position 0, shifted back, is a selection from
      the tail picking the same posts. */
  lemma UnshiftSelection(r: seq<Post>, posts: seq<Post>, idx: seq<nat>)
    requires posts != []
    requires IsStableSelection(r, posts, idx)
    requires 0 !in idx
    ensures forall k :: 0 <= k < |idx| ==> idx[k] >= 1
    ensures IsStableSelection(r, posts[1..], Unshift(idx))
  {
  }

  /** The passing positions other than 0, shifted back, are the passing
      positions of the tail. */
  lemma UnshiftPositions(posts: seq<Post>, idx: seq<nat>, f: Filters)
    requires posts != []
    requires forall i :: 0 <= i < |posts| ==> (i in idx <==> i != 0 && Keep(posts[i], f))
    requires forall k :: 0 <= k < |idx| ==> 1 <= idx[k] < |posts|
    ensures forall i :: 0 <= i < |posts| - 1 ==> (i in Unshift(idx) <==> Keep(posts[1..][i], f))
  {
    var u := Unshift(idx);
    forall i | 0 <= i < |posts| - 1 ensures i in u <==> Keep(posts[1..][i], f) {
      assert posts[1..][i] == posts[i + 1];
      if i + 1 in idx {
        var k :| 0 <= k < |idx| && idx[k] == i + 1;
        assert u[k] == i;
      }
    }
  }

  /** Two filters that agree on the truthiness and truthy values of all
      three fields select the same posts: `Some("")` behaves like `None`. */
  lemma {:induction false} FalsyFieldsAreAbsent(posts: seq<Post>, f: Filters, g: Filters)
    requires SameTruthy(f.query, g.query)
    requires SameTruthy(f.category, g.category)
    requires SameTruthy(f.city, g.city)
    ensures FilterClientSide(posts, f) == FilterClientSide(posts, g)
  {
    if posts != [] {
      FalsyFieldsAreAbsent(posts[1..], f, g);
    }
  }

  /** With no truthy field every guard is skipped and the input comes back
      unchanged. */
  lemma {:induction false} NoActiveGuardIsIdentity(posts: seq<Post>, f: Filters)
    requires !Truthy(f.query) && !Truthy(f.category) && !Truthy(f.city)
    ensures FilterClientSide(posts, f) == posts
  {
    if posts != [] {
      NoActiveGuardIsIdentity(posts[1..], f);
      assert posts == [posts[0]] + posts[1..];
    }
  }

  /** Filtering again with the same filters changes nothing. */
  lemma {:induction false} FilterIdempotent(posts: seq<Post>, f: Filters)
    ensures FilterClientSide(FilterClientSide(posts, f), f) == FilterClientSide(posts, f)
  {
    if posts != [] {
      FilterIdempotent(posts[1..], f);
    }
  }

  /** Splitting off the first element of a concatenation. */
  lemma SplitFirst<T>(a: seq<T>, b: seq<T>)
    requires a != []
    ensures a == [a[0]] + a[1..]
    ensures a + b == [a[0]] + (a[1..] + b)
  {
  }

  lemma AppendAssoc<T>(a: seq<T>, b: seq<T>, c: seq<T>)
    ensures a + (b + c) == (a + b) + c
  {
  }

  /** One step of the filter: the first post is kept or dropped on its own
      merits, in front of the filtered rest. */
  lemma FilterCons(p: Post, rest: seq<Post>, f: Filters)
    ensures FilterClientSide([p] + rest, f) == (if Keep(p, f) then [p] else []) + FilterClientSide(rest, f)
  {
    assert ([p] + rest)[1..] == rest;
  }

  /** The filter works post by post: filtering a concatenation is
      concatenating the filtered parts. */
  lemma {:induction false} FilterAppend(a: seq<Post>, b: seq<Post>, f: Filters)
    ensures FilterClientSide(a + b, f) == FilterClientSide(a, f) + FilterClientSide(b, f)
  {
    if a == [] {
      assert a + b == b;
    } else {
      var head := if Keep(a[0], f) then [a[0]] else [];
      var x, y := FilterClientSide(a[1..], f), FilterClientSide(b, f);
      SplitFirst(a, b);
      calc {
        FilterClientSide(a + b, f);
      == { FilterCons(a[0], a[1..] + b, f); }
        head + FilterClientSide(a[1..] + b, f);
      == { FilterAppend(a[1..], b, f); }
        head + (x + y);
      == { AppendAssoc(head, x, y); }
        (head + x) + y;
      == { FilterCons(a[0], a[1..], f); }
        FilterClientSide(a, f) + y;
      }
    }
  }

  /** A query is an active guard as soon as it is non-empty: it is not
      trimmed, so a query of spaces keeps exactly the posts whose title
      contains that run of spaces. */
  lemma SpacesQueryIsActive(p: Post, q: string)
    requires q != [] && forall k :: 0 <= k < |q| ==> q[k] == ' '
    ensures Keep(p, Filters(Some(q), None, None)) <==> Includes(p.title, q)
  {
    SpacesMatchVerbatim(p.title, q);
  }

  /** The text guard is case-insensitive: a post whose title contains the
      query verbatim is never rejected by the text guard. */
  lemma VerbatimTitleMatchPasses(p: Post, f: Filters)
    requires Truthy(f.query) && Includes(p.title, f.query.value)
    requires Truthy(f.category) ==> p.postType == f.category.value
    requires Truthy(f.city) ==> p.citySlug == f.city.value
    ensures Keep(p, f)
  {
    IncludesSurvivesLowering(p.title, f.query.value);
  }
}
