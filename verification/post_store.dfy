/** `src/hooks/usePostStore.js`: the feed of analysed posts, newest first,
    mirrored into browser storage under one key.

    Storage is a value here. Reading it yields the stored list, or `[]` when
    the key is missing or its text does not parse. Writing may fail when
    the quota is exceeded; that outcome is the `quotaOk` flag, and a failed
    write leaves the old value in place. */
module PostStore {
  import opened Base
  import opened IntentDispatch
  import opened ChartPivot

  /** A feed entry: the placeholder `analyze` builds, then finalised. An
      `isStreaming` that a stored post lacks is `None`. */
  datatype Post = Post(id: string, createdAt: int, prompt: string, title: string,
                       analysisText: string, intent: Intent, chart: Chart,
                       isStreaming: Option<bool>)

  /** `p => p.id !== id`. */
  function IdIsNot(id: string): Post -> bool {
    (p: Post) => p.id != id
  }

  /** `p => p.id === id`. */
  function IdIs(id: string): Post -> bool {
    (p: Post) => p.id == id
  }

  function PostId(p: Post): string { p.id }

  predicate UniqueIds(posts: seq<Post>) {
    DistinctKeys(posts, PostId)
  }

  /** The list `addPost` computes: the new post in front, any older post
      with its id dropped, the rest in their previous order. */
  function AddPost(prev: seq<Post>, post: Post): (next: seq<Post>)
    ensures |next| > 0 && next[0] == post
    ensures forall q :: q in next[1..] <==> q in prev && q.id != post.id
    ensures IsSubseq(next[1..], prev)
  {
    [post] + Filter(prev, IdIsNot(post.id))
  }

  /** Behind the new post, each older post with another id keeps every
      copy it had, and no post with the new id is left. */
  lemma AddPostCounts(prev: seq<Post>, post: Post)
    ensures var next := AddPost(prev, post);
      forall q :: multiset(next[1..])[q] == if q.id != post.id then multiset(prev)[q] else 0
  {
    FilterCount(prev, IdIsNot(post.id));
    assert AddPost(prev, post)[1..] == Filter(prev, IdIsNot(post.id));
  }

  /** The list `removePost` computes: every post with the id dropped, the
      others in their previous order. */
  function RemovePost(prev: seq<Post>, id: string): (next: seq<Post>)
    ensures forall q :: q in next <==> q in prev && q.id != id
    ensures IsSubseq(next, prev)
    ensures forall q :: multiset(next)[q] == if q.id != id then multiset(prev)[q] else 0
  {
    FilterCount(prev, IdIsNot(id));
    Filter(prev, IdIsNot(id))
  }

  /** Adding keeps ids unique. */
  lemma AddPostUniqueIds(prev: seq<Post>, post: Post)
    requires UniqueIds(prev)
    ensures UniqueIds(AddPost(prev, post))
  {
    var rest := Filter(prev, IdIsNot(post.id));
    var next := AddPost(prev, post);
    FilterDistinctKeys(prev, IdIsNot(post.id), PostId);
    assert next[1..] == rest;
    forall i, j | 0 <= i < j < |next| ensures next[i].id != next[j].id {
      if i == 0 {
        assert next[j] in next[1..];
      } else {
        assert next[i] == rest[i - 1] && next[j] == rest[j - 1];
      }
    }
  }

  /** Removing an id no post carries changes nothing. */
  lemma RemoveUnknown(prev: seq<Post>, id: string)
    requires forall i :: 0 <= i < |prev| ==> prev[i].id != id
    ensures RemovePost(prev, id) == prev
  {
    FilterAll(prev, IdIsNot(id));
  }

  /** Removing a post just added undoes the addition and also drops any
      older post with the same id. */
  lemma RemoveAfterAdd(prev: seq<Post>, post: Post)
    ensures RemovePost(AddPost(prev, post), post.id) == RemovePost(prev, post.id)
  {
    var rest := Filter(prev, IdIsNot(post.id));
    assert AddPost(prev, post)[1..] == rest;
    FilterAll(rest, IdIsNot(post.id));
  }

  /** `getPost` over a list: the first post with the id, if any. */
  function FindPost(posts: seq<Post>, id: string): (r: Option<Post>)
    ensures r.None? <==> forall i :: 0 <= i < |posts| ==> posts[i].id != id
    ensures r.Some? ==> exists i :: 0 <= i < |posts| && posts[i] == r.value && r.value.id == id
                                    && forall j :: 0 <= j < i ==> posts[j].id != id
  {
    Find(posts, IdIs(id))
  }

  /** After an addition the post is found under its id; after a removal
      nothing is. */
  lemma FindAfterAddAndRemove(prev: seq<Post>, post: Post, id: string)
    ensures FindPost(AddPost(prev, post), post.id) == Some(post)
    ensures FindPost(RemovePost(prev, id), id).None?
  {
    var next := RemovePost(prev, id);
    forall i | 0 <= i < |next| ensures next[i].id != id {
      assert next[i] in next;
    }
  }

  // ---------------------------------------------------------------------
  // Persistence

  /** The storage entry: absent, unparsable, or a saved list. */
  datatype Storage = Missing | Corrupt | Saved(posts: seq<Post>)

  /** `loadPosts()`. */
  function LoadPosts(storage: Storage): (posts: seq<Post>)
    ensures storage.Saved? ==> posts == storage.posts
    ensures !storage.Saved? ==> posts == []
  {
    match storage
    case Saved(ps) => ps
    case _ => []
  }

  /** `savePosts(posts)`: a write that either lands or is ignored. */
  function SavePosts(storage: Storage, posts: seq<Post>, quotaOk: bool): (after: Storage)
    ensures quotaOk ==> LoadPosts(after) == posts
    ensures !quotaOk ==> after == storage
  {
    if quotaOk then Saved(posts) else storage
  }

  /** The hook's state: the list on screen and what storage holds. */
  datatype Store = Store(posts: seq<Post>, storage: Storage)

  /** Mounting the hook: the list starts as whatever storage yields. */
  function Mount(storage: Storage): (s: Store)
    ensures s.storage == storage && s.posts == LoadPosts(storage)
  {
    Store(LoadPosts(storage), storage)
  }

  function Add(s: Store, post: Post, quotaOk: bool): (t: Store)
    ensures t.posts == AddPost(s.posts, post)
    ensures quotaOk ==> LoadPosts(t.storage) == t.posts
    ensures !quotaOk ==> t.storage == s.storage
  {
    var next := AddPost(s.posts, post);
    Store(next, SavePosts(s.storage, next, quotaOk))
  }

  function Remove(s: Store, id: string, quotaOk: bool): (t: Store)
    ensures t.posts == RemovePost(s.posts, id)
    ensures quotaOk ==> LoadPosts(t.storage) == t.posts
    ensures !quotaOk ==> t.storage == s.storage
  {
    var next := RemovePost(s.posts, id);
    Store(next, SavePosts(s.storage, next, quotaOk))
  }

  /** `getPost(id)` reads storage, not the list on screen. */
  function GetPost(s: Store, id: string): (r: Option<Post>)
    ensures r.None? <==> forall i :: 0 <= i < |LoadPosts(s.storage)| ==> LoadPosts(s.storage)[i].id != id
    ensures r.Some? ==> var posts := LoadPosts(s.storage);
      exists i :: 0 <= i < |posts| && posts[i] == r.value && r.value.id == id
                  && forall j :: 0 <= j < i ==> posts[j].id != id
  {
    FindPost(LoadPosts(s.storage), id)
  }

  /** A saved addition survives a re-mount and is found by `getPost`. */
  lemma AddPersists(s: Store, post: Post)
    ensures var t := Add(s, post, true);
      && Mount(t.storage).posts == t.posts
      && GetPost(t, post.id) == Some(post)
  {
    FindAfterAddAndRemove(s.posts, post, post.id);
  }

  /** Two additions show the later one first, as the feed does. */
  lemma NewestFirst(s: Store, p1: Post, p2: Post, ok1: bool, ok2: bool)
    requires p1.id != p2.id
    ensures var t := Add(Add(s, p1, ok1), p2, ok2);
      |t.posts| >= 2 && t.posts[0] == p2 && t.posts[1] == p1
  {
    var t1 := Add(s, p1, ok1);
    assert t1.posts[0] == p1;
    FilterFirst(t1.posts, IdIsNot(p2.id));
  }
}
