/** The inbox (app/poruke/page.tsx): the user's conversations joined to their
    posts, and the realtime handler that keeps them ordered by recency. */
module InboxPage {
  import opened Wrappers

  /** A conversation row; `last_message_at` is kept as its time in
      milliseconds, the value the page compares. */
  datatype ConversationRow = ConversationRow(id: string, postId: string, userAId: string, userBId: string, lastMessageAt: int)

  datatype PostRow = PostRow(id: string, title: string, city: string)

  datatype Item = Item(convo: ConversationRow, post: Option<PostRow>, otherUserId: string)

  datatype QueryError = QueryError(message: string)

  // ---------------------------------------------------------------------
  // The initial list

  /** The participant shown for a conversation: `user_b_id` when the user is
      `user_a_id`, `user_a_id` otherwise. */
  function OtherUserId(c: ConversationRow, uid: string): (r: string)
    ensures c.userAId == uid ==> r == c.userBId
    ensures c.userAId != uid ==> r == c.userAId
  {
    if c.userAId == uid then c.userBId else c.userAId
  }

  /** For a user taking part in the conversation, the user and the shown
      participant are the conversation's two participants; the user is shown
      only in a conversation with themselves. */
  lemma OtherIsCounterpart(c: ConversationRow, uid: string)
    requires uid == c.userAId || uid == c.userBId
    ensures multiset{uid, OtherUserId(c, uid)} == multiset{c.userAId, c.userBId}
    ensures OtherUserId(c, uid) == uid <==> c.userAId == c.userBId
  {
  }

  /** The map the `forEach` of `postsMap.set` calls builds: a later post with
      the same id replaces an earlier one. */
  function PostsMap(ps: seq<PostRow>): map<string, PostRow>
    decreases |ps|
  {
    if ps == [] then map[]
    else PostsMap(ps[..|ps| - 1])[ps[|ps| - 1].id := ps[|ps| - 1]]
  }

  /** The keys of the map are the ids of the returned posts. */
  lemma {:induction false} PostsMapKeys(ps: seq<PostRow>)
    ensures PostsMap(ps).Keys == set p | p in ps :: p.id
    decreases |ps|
  {
    if ps != [] {
      var init := ps[..|ps| - 1];
      PostsMapKeys(init);
      assert forall p :: p in ps <==> p in init || p == ps[|ps| - 1];
    }
  }

  /** Each id maps to the last returned post that carries it. */
  lemma {:induction false} PostsMapLast(ps: seq<PostRow>, k: string)
    requires k in PostsMap(ps)
    ensures exists i :: 0 <= i < |ps| && ps[i] == PostsMap(ps)[k] && ps[i].id == k
                        && forall j :: i < j < |ps| ==> ps[j].id != k
    decreases |ps|
  {
    var n := |ps| - 1;
    if ps[n].id == k {
      assert ps[n] == PostsMap(ps)[k];
    } else {
      var init := ps[..n];
      assert PostsMap(ps)[k] == PostsMap(init)[k];
      PostsMapLast(init, k);
      var i :| 0 <= i < |init| && init[i] == PostsMap(init)[k] && init[i].id == k
               && forall j :: i < j < |init| ==> init[j].id != k;
      assert ps[i] == init[i];
      assert forall j :: i < j < |ps| ==> ps[j].id != k by {
        forall j | i < j < |ps| ensures ps[j].id != k {
          if j < n { assert ps[j] == init[j]; }
        }
      }
    }
  }

  /** `postsMap`, filled by a loop over the rows the posts query returned. */
  method BuildPostsMap(ps: seq<PostRow>) returns (m: map<string, PostRow>)
    ensures m == PostsMap(ps)
  {
    m := map[];
    for i := 0 to |ps|
      invariant m == PostsMap(ps[..i])
    {
      assert ps[..i + 1][..i] == ps[..i];
      m := m[ps[i].id := ps[i]];
    }
    assert ps[..|ps|] == ps;
  }

  /** `mapped`: one item per conversation, in the conversations' order. */
  function Mapped(convos: seq<ConversationRow>, postsMap: map<string, PostRow>, uid: string): (r: seq<Item>)
    ensures |r| == |convos|
    ensures forall i :: 0 <= i < |r| ==>
              r[i].convo == convos[i] && r[i].otherUserId == OtherUserId(convos[i], uid)
    ensures forall i :: 0 <= i < |r| ==>
              r[i].post == if convos[i].postId in postsMap then Some(postsMap[convos[i].postId]) else None
  {
    seq(|convos|, i requires 0 <= i < |convos| =>
      var c := convos[i];
      Item(c, if c.postId in postsMap then Some(postsMap[c.postId]) else None, OtherUserId(c, uid)))
  }

  /** Each item of the initial list carries a post that the posts query
      returned with the conversation's `post_id`, and it carries none exactly
      when no returned post has that id. */
  lemma JoinFindsPost(convos: seq<ConversationRow>, ps: seq<PostRow>, uid: string, i: nat)
    requires i < |convos|
    ensures var it := Mapped(convos, PostsMap(ps), uid)[i];
            (it.post.None? <==> forall p :: p in ps ==> p.id != convos[i].postId)
            && (it.post.Some? ==> it.post.value in ps && it.post.value.id == convos[i].postId)
  {
    PostsMapKeys(ps);
    var m := PostsMap(ps);
    var k := convos[i].postId;
    if k in m {
      PostsMapLast(ps, k);
      var j :| 0 <= j < |ps| && ps[j] == m[k] && ps[j].id == k
               && forall l :: j < l < |ps| ==> ps[l].id != k;
    } else {
      assert forall p :: p in ps ==> p.id in m.Keys;
    }
  }

  // ---------------------------------------------------------------------
  // The realtime UPDATE handler

  /** The sort key: `last_message_at`. */
  function Recency(x: Item): int {
    x.convo.lastMessageAt
  }

  /** Most recent first. */
  predicate SortedByRecency(s: seq<Item>) {
    forall k, l :: 0 <= k < l < |s| ==> Recency(s[k]) >= Recency(s[l])
  }

  /** `prev.findIndex(x => x.convo.id === id)` */
  function FindIndex(items: seq<Item>, id: string): (r: int)
    ensures -1 <= r < |items|
    ensures r == -1 <==> forall i :: 0 <= i < |items| ==> items[i].convo.id != id
    ensures r >= 0 ==> items[r].convo.id == id && forall i :: 0 <= i < r ==> items[i].convo.id != id
  {
    if items == [] then -1
    else if items[0].convo.id == id then 0
    else
      var k := FindIndex(items[1..], id);
      if k == -1 then -1 else k + 1
  }

  /** `copy[idx] = { ...copy[idx], convo: updated }` */
  function Replaced(items: seq<Item>, idx: nat, updated: ConversationRow): (r: seq<Item>)
    requires idx < |items|
    ensures |r| == |items| && r[idx].convo == updated
    ensures r[idx].post == items[idx].post && r[idx].otherUserId == items[idx].otherUserId
    ensures forall i :: 0 <= i < |r| && i != idx ==> r[i] == items[i]
  {
    items[idx := items[idx].(convo := updated)]
  }

  /** The conversation ids of a list of items. */
  function ConvoIds(items: seq<Item>): set<string> {
    set x | x in items :: x.convo.id
  }

  /** Replacing an item by one with the same conversation id keeps the set of
      conversation ids. */
  lemma ReplacedKeepsIds(items: seq<Item>, idx: nat, updated: ConversationRow)
    requires idx < |items| && items[idx].convo.id == updated.id
    ensures ConvoIds(Replaced(items, idx, updated)) == ConvoIds(items)
  {
    var r := Replaced(items, idx, updated);
    forall id | id in ConvoIds(items) ensures id in ConvoIds(r) {
      var x :| x in items && x.convo.id == id;
      var i :| 0 <= i < |items| && items[i] == x;
      assert r[i].convo.id == id;
    }
    forall id | id in ConvoIds(r) ensures id in ConvoIds(items) {
      var x :| x in r && x.convo.id == id;
      var i :| 0 <= i < |r| && r[i] == x;
      assert items[i].convo.id == id;
    }
  }

  /** A reordering keeps the length, the items and the conversation ids. */
  lemma PermutationKeepsItems(s: seq<Item>, t: seq<Item>)
    requires multiset(s) == multiset(t)
    ensures |s| == |t|
    ensures forall x :: x in s <==> x in t
    ensures ConvoIds(s) == ConvoIds(t)
  {
    assert |s| == |multiset(s)| == |multiset(t)| == |t|;
    assert forall x :: x in s <==> x in multiset(s);
    assert forall x :: x in t <==> x in multiset(t);
  }

  /** Exchanges two neighbouring items. */
  method SwapDown(a: array<Item>, j: nat)
    requires 0 < j < a.Length
    modifies a
    ensures a[..] == old(a[..])[j - 1 := old(a[j])][j := old(a[j - 1])]
    ensures multiset(a[..]) == multiset(old(a[..]))
  {
    a[j - 1], a[j] := a[j], a[j - 1];
  }

  /** `copy.sort((a, b) => b.last_message_at - a.last_message_at)`, as an
      insertion sort by adjacent swaps. */
  method SortByRecency(a: array<Item>)
    modifies a
    ensures SortedByRecency(a[..])
    ensures multiset(a[..]) == multiset(old(a[..]))
  {
    if a.Length == 0 {
      return;
    }
    var i := 1;
    while i < a.Length
      invariant 1 <= i <= a.Length
      invariant forall k, l :: 0 <= k < l < i ==> Recency(a[k]) >= Recency(a[l])
      invariant multiset(a[..]) == multiset(old(a[..]))
    {
      var j := i;
      while j > 0 && Recency(a[j - 1]) < Recency(a[j])
        invariant 0 <= j <= i < a.Length
        invariant forall k, l :: 0 <= k < l <= i && k != j && l != j ==> Recency(a[k]) >= Recency(a[l])
        invariant forall l :: j < l <= i ==> Recency(a[j]) > Recency(a[l])
        invariant multiset(a[..]) == multiset(old(a[..]))
      {
        SwapDown(a, j);
        j := j - 1;
      }
      i := i + 1;
    }
  }

  class Inbox {
    var items: seq<Item>
    var me: Option<string>

    constructor ()
      ensures items == [] && me == None
    {
      items := [];
      me := None;
    }

    /** The mount effect. `uid` is the session's user id, `convos` the
        answer of the conversations query and `postsData` the rows of the
        posts query; the posts query's error is not looked at. Without a
        user the browser is sent to `/login`. */
    method Load(uid: Option<string>, convos: Result<Option<seq<ConversationRow>>, QueryError>,
                postsData: Option<seq<PostRow>>)
      returns (redirect: Option<string>)
      modifies this`items, this`me
      ensures uid.None? || uid.value == "" ==>
                redirect == Some("/login") && items == old(items) && me == old(me)
      ensures uid.Some? && uid.value != "" ==> redirect == None && me == uid
      ensures uid.Some? && uid.value != "" && convos.Failure? ==> items == old(items)
      ensures uid.Some? && uid.value != "" && convos.Success? ==>
                items == Mapped(convos.value.GetOr([]), PostsMap(postsData.GetOr([])), uid.value)
    {
      if uid.None? || uid.value == "" {
        return Some("/login");
      }
      redirect := None;
      me := uid;
      if convos.Failure? {
        return;
      }
      var postsMap := BuildPostsMap(postsData.GetOr([]));
      items := Mapped(convos.value.GetOr([]), postsMap, uid.value);
    }

    /** The realtime UPDATE handler for conversation `updated`: an unknown
        id leaves the list as it is; a known one has its item's conversation
        replaced, and the list is then ordered most recent first. */
    method OnConversationUpdate(updated: ConversationRow)
      modifies this`items
      ensures FindIndex(old(items), updated.id) == -1 ==> items == old(items)
      ensures FindIndex(old(items), updated.id) != -1 ==>
                SortedByRecency(items)
                && multiset(items) == multiset(Replaced(old(items), FindIndex(old(items), updated.id), updated))
    {
      var idx := FindIndex(items, updated.id);
      if idx == -1 {
        return;
      }
      var copy := new Item[|items|](i requires 0 <= i < |items| reads this => items[i]);
      assert copy[..] == items;
      copy[idx] := copy[idx].(convo := updated);
      assert copy[..] == Replaced(items, idx, updated);
      SortByRecency(copy);
      items := copy[..];
    }
  }

  /** What the handler's result keeps from the list before the update: the
      length, the conversation ids, every other item unchanged, and the
      updated item with its post and other participant. */
  lemma UpdateKeeps(before: seq<Item>, after: seq<Item>, updated: ConversationRow, idx: nat)
    requires idx < |before| && before[idx].convo.id == updated.id
    requires multiset(after) == multiset(Replaced(before, idx, updated))
    ensures |after| == |before| && ConvoIds(after) == ConvoIds(before)
    ensures before[idx].(convo := updated) in after
    ensures forall i :: 0 <= i < |before| && i != idx ==> before[i] in after
  {
    var r := Replaced(before, idx, updated);
    PermutationKeepsItems(after, r);
    ReplacedKeepsIds(before, idx, updated);
    assert r[idx] == before[idx].(convo := updated);
    forall i | 0 <= i < |before| && i != idx ensures before[i] in after {
      assert r[i] == before[i];
    }
  }
}
