/**
 * The draft list of a campaign (`CampaignPostsManager` in
 * `src/components/CampaignPostForm.tsx`): adding, replacing, removing and
 * moving drafts, each list change renumbering the drafts' `order` from 1,
 * and the image list of one draft. The clock reading of `addPost` and the
 * uploaded file URLs are parameters.
 */
module CampaignPostForm {
  import opened Builtins
  import opened Lists
  import opened Sorting

  /** `CampaignPostDraft`. */
  datatype Draft = Draft(
    id: string,
    title: string,
    content: string,
    images: Option<seq<string>>,
    order: int,
    publishAt: Option<Date>)

  /** The drafts are numbered 1, 2, … in list order: what the editor shows as "Post #n". */
  predicate Numbered(s: seq<Draft>) {
    forall i :: 0 <= i < |s| ==> s[i].order == i + 1
  }

  /** A draft without its position number. */
  function Unnumbered(d: Draft): Draft {
    d.(order := 0)
  }

  /** The drafts without their position numbers, in list order. */
  function Contents(s: seq<Draft>): (r: seq<Draft>)
    ensures |r| == |s|
    ensures forall i :: 0 <= i < |s| ==> r[i] == Unnumbered(s[i])
  {
    seq(|s|, i requires 0 <= i < |s| => Unnumbered(s[i]))
  }

  /** `posts.map((post, i) => ({...post, order: i + 1}))`. */
  function Renumber(s: seq<Draft>): (r: seq<Draft>)
    ensures Numbered(r) && Contents(r) == Contents(s)
  {
    seq(|s|, i requires 0 <= i < |s| => s[i].(order := i + 1))
  }

  /** The drafts of a numbered list are fixed by their contents. */
  lemma NumberedByContents(a: seq<Draft>, b: seq<Draft>)
    requires Numbered(a) && Numbered(b) && Contents(a) == Contents(b)
    ensures a == b
  {
    assert |a| == |Contents(a)|;
    forall i | 0 <= i < |a|
      ensures a[i] == b[i]
    {
      assert Unnumbered(a[i]) == Contents(a)[i];
    }
  }

  /** `addPost`: a blank draft numbered `length + 1`, appended; the others are untouched. */
  function AddPost(posts: seq<Draft>, now: int): (r: seq<Draft>)
    ensures |r| == |posts| + 1 && r[..|posts|] == posts
    ensures r[|posts|] == Draft("post-" + NumToString(N(now)), "", "", None, |posts| + 1, None)
  {
    posts + [Draft("post-" + NumToString(N(now)), "", "", None, |posts| + 1, None)]
  }

  /** On a numbered list, adding keeps the list numbered. */
  lemma AddPostKeepsNumbering(posts: seq<Draft>, now: int)
    requires Numbered(posts)
    ensures Numbered(AddPost(posts, now))
  {
    var r := AddPost(posts, now);
    forall i | 0 <= i < |r|
      ensures r[i].order == i + 1
    {
      if i < |posts| {
        assert r[i] == r[..|posts|][i];
      }
    }
  }

  /** `updatePost(index, p)`: the draft at an existing index replaced, every other one kept. */
  function UpdatePost(posts: seq<Draft>, index: nat, p: Draft): (r: seq<Draft>)
    requires index < |posts|
    ensures |r| == |posts| && r[index] == p
    ensures forall k :: 0 <= k < |posts| && k != index ==> r[k] == posts[k]
  {
    posts[index := p]
  }

  /** Putting the old draft back undoes an update. */
  lemma UpdatePostUndo(posts: seq<Draft>, index: nat, p: Draft)
    requires index < |posts|
    ensures UpdatePost(UpdatePost(posts, index, p), index, posts[index]) == posts
  {
  }

  /** `removePost(index)`: the list without that index, renumbered. */
  function RemovePost(posts: seq<Draft>, index: int): (r: seq<Draft>)
    ensures Numbered(r)
    ensures Contents(r) == Contents(WithoutIndex(posts, index))
  {
    Renumber(WithoutIndex(posts, index))
  }

  /** Removal drops exactly the draft at the index and keeps the others in order. */
  lemma RemovePostExactly(posts: seq<Draft>, index: int)
    requires 0 <= index < |posts|
    ensures |RemovePost(posts, index)| == |posts| - 1
    ensures forall k :: 0 <= k < index ==> Unnumbered(RemovePost(posts, index)[k]) == Unnumbered(posts[k])
    ensures forall k :: index <= k < |posts| - 1 ==>
      Unnumbered(RemovePost(posts, index)[k]) == Unnumbered(posts[k + 1])
  {
    var r := RemovePost(posts, index);
    var w := WithoutIndex(posts, index);
    assert |Contents(r)| == |Contents(w)|;
    forall k | 0 <= k < |posts| - 1
      ensures Unnumbered(r[k]) == Unnumbered(w[k])
    {
      assert Contents(r)[k] == Contents(w)[k];
    }
  }

  /** `s.splice(i, 0, x)`. */
  function InsertAt<T>(s: seq<T>, i: nat, x: T): (r: seq<T>)
    requires i <= |s|
    ensures |r| == |s| + 1 && r[i] == x
    ensures forall k :: 0 <= k < i ==> r[k] == s[k]
    ensures forall k :: i < k < |r| ==> r[k] == s[k - 1]
  {
    s[..i] + [x] + s[i..]
  }

  /** Taking one element out and inserting it at `to`. */
  function Moved<T>(s: seq<T>, from: nat, to: nat): (r: seq<T>)
    requires from < |s| && to < |s|
    ensures |r| == |s| && r[to] == s[from]
  {
    InsertAt(RemoveAt(s, from), to, s[from])
  }

  /** The element lands at `to`, the others keep their relative order, and nothing is lost or added. */
  lemma MovedProperties<T>(s: seq<T>, from: nat, to: nat)
    requires from < |s| && to < |s|
    ensures RemoveAt(Moved(s, from, to), to) == RemoveAt(s, from)
    ensures multiset(Moved(s, from, to)) == multiset(s)
  {
    var rest := RemoveAt(s, from);
    var r := Moved(s, from, to);
    assert r == rest[..to] + [s[from]] + rest[to..];
    assert RemoveAt(r, to) == rest[..to] + rest[to..];
    assert rest[..to] + rest[to..] == rest;
    assert s == s[..from] + [s[from]] + s[from + 1..];
    assert rest == s[..from] + s[from + 1..];
    assert multiset(s) == multiset(s[..from]) + multiset{s[from]} + multiset(s[from + 1..]);
    assert multiset(rest) == multiset(s[..from]) + multiset(s[from + 1..]);
    assert multiset(r) == multiset(rest[..to]) + multiset{s[from]} + multiset(rest[to..]);
    assert multiset(rest) == multiset(rest[..to]) + multiset(rest[to..]);
    assert multiset(r) == multiset(rest) + multiset{s[from]};
  }

  /** Moving up or down by one: the buttons' moves exchange two neighbours. */
  lemma MoveByOneSwaps<T>(s: seq<T>, i: nat)
    requires i + 1 < |s|
    ensures Moved(s, i, i + 1) == Swapped(s, i, i + 1)
    ensures Moved(s, i + 1, i) == Swapped(s, i, i + 1)
  {
  }

  /** Moving back returns the original list. */
  lemma MoveBack<T>(s: seq<T>, from: nat, to: nat)
    requires from < |s| && to < |s|
    ensures Moved(Moved(s, from, to), to, from) == s
  {
    var r := Moved(s, from, to);
    MovedProperties(s, from, to);
    var back := Moved(r, to, from);
    assert back == InsertAt(RemoveAt(s, from), from, s[from]);
    assert s == s[..from] + [s[from]] + s[from + 1..];
  }

  /**
   * `movePost(from, to)`: splice the draft out of a copy of the list, splice
   * it back in at `to`, and renumber.
   */
  method MovePost(posts: seq<Draft>, from: nat, to: nat) returns (reordered: seq<Draft>)
    requires from < |posts| && to < |posts|
    ensures Numbered(reordered) && |reordered| == |posts|
    ensures Contents(reordered) == Contents(Moved(posts, from, to))
    ensures Unnumbered(reordered[to]) == Unnumbered(posts[from])
    ensures multiset(Contents(reordered)) == multiset(Contents(posts))
  {
    var updatedPosts := posts;
    var movedPost := updatedPosts[from];
    updatedPosts := updatedPosts[..from] + updatedPosts[from + 1..];
    updatedPosts := updatedPosts[..to] + [movedPost] + updatedPosts[to..];
    assert updatedPosts == Moved(posts, from, to);
    reordered := Renumber(updatedPosts);
    assert Contents(reordered)[to] == Unnumbered(reordered[to]);
    assert Contents(updatedPosts)[to] == Unnumbered(posts[from]);
    ContentsMoved(posts, from, to);
  }

  /** Taking the contents commutes with a move. */
  lemma ContentsMoved(s: seq<Draft>, from: nat, to: nat)
    requires from < |s| && to < |s|
    ensures Contents(Moved(s, from, to)) == Moved(Contents(s), from, to)
    ensures multiset(Contents(Moved(s, from, to))) == multiset(Contents(s))
  {
    var a := Contents(Moved(s, from, to));
    var b := Moved(Contents(s), from, to);
    forall k | 0 <= k < |s|
      ensures a[k] == b[k]
    {
    }
    MovedProperties(Contents(s), from, to);
  }

  /** `canAddMore`: fewer drafts than planned posts; never when the planned count is NaN. */
  predicate CanAddMore(count: nat, totalPosts: Num) {
    totalPosts.N? && count < totalPosts.v
  }

  /** The notice under the list, as written: `!canAddMore && posts.length < totalPosts`. */
  predicate MaxReachedNoticeAsWritten(count: nat, totalPosts: Num) {
    !CanAddMore(count, totalPosts) && totalPosts.N? && count < totalPosts.v
  }

  /** The notice's two conditions exclude each other, so it never shows. */
  lemma MaxReachedNoticeNeverShows(count: nat, totalPosts: Num)
    ensures !MaxReachedNoticeAsWritten(count, totalPosts)
  {
  }

  /** The notice as its text means it: the planned number of drafts has been reached. */
  predicate MaxReachedNotice(count: nat, totalPosts: Num) {
    totalPosts.N? && count >= totalPosts.v
  }

  /** Where the count is a number, the notice shows exactly when no more drafts may be added. */
  lemma MaxReachedNoticeExactly(count: nat, totalPosts: Num)
    requires totalPosts.N?
    ensures MaxReachedNotice(count, totalPosts) <==> !CanAddMore(count, totalPosts)
  {
  }

  /** `removeImage(k)`: the list without index k, and no list at all once it is empty. */
  function RemoveImage(images: Option<seq<string>>, k: int): (r: Option<seq<string>>)
    ensures r.Some? ==> r.value != []
  {
    var updated := if images.Some? then WithoutIndex(images.value, k) else [];
    if |updated| > 0 then Some(updated) else None
  }

  /** Removing an existing image drops exactly that one. */
  lemma RemoveImageExactly(images: seq<string>, k: int)
    requires 0 <= k < |images|
    ensures |images| == 1 ==> RemoveImage(Some(images), k) == None
    ensures |images| > 1 ==> RemoveImage(Some(images), k) == Some(RemoveAt(images, k))
    ensures |images| > 1 ==> multiset(RemoveImage(Some(images), k).value) == multiset(images) - multiset{images[k]}
  {
    WithoutIndexMultiset(images, k);
  }

  /** An index outside the list changes nothing a non-empty list holds. */
  lemma RemoveImageOutside(images: seq<string>, k: int)
    requires !(0 <= k < |images|) && images != []
    ensures RemoveImage(Some(images), k) == Some(images)
  {
  }

  /** The upload handler: the new URLs after the existing images, in upload order; no files, no change. */
  function AppendImages(images: Option<seq<string>>, urls: seq<string>): (r: Option<seq<string>>)
    ensures urls == [] ==> r == images
    ensures urls != [] ==> r.Some? && |r.value| >= |urls| && r.value[|r.value| - |urls|..] == urls
    ensures urls != [] ==> r.value[..|r.value| - |urls|] == (if images.Some? then images.value else [])
  {
    if urls == [] then images
    else Some((if images.Some? then images.value else []) + urls)
  }
}
