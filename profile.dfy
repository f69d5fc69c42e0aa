/** The profile page (app/profil/page.tsx): loading the user's profile and
    posts, and pausing or re-activating one of the posts. */
module ProfilePage {
  import opened Wrappers
  import opened Routes

  datatype Status = Active | Paused | Deleted

  datatype PostType = Offer | Request

  datatype PostRow = PostRow(id: string, title: string, city: string, postType: PostType, status: Status, createdAt: string)

  datatype ProfileRow = ProfileRow(id: string, displayName: Option<string>)

  /** The signed-in user as the page reads it. */
  datatype User = User(id: string, email: Option<string>)

  datatype QueryError = QueryError(message: string)

  /** The status `toggleStatus` writes: an active post is paused, any other
      post (a deleted one included) becomes active. */
  function NextStatus(s: Status): (r: Status)
    ensures r == Paused <==> s == Active
    ensures r != Deleted
  {
    if s == Active then Paused else Active
  }

  /** The page offers the toggle only for posts that are not deleted. */
  predicate ToggleOffered(p: PostRow) {
    p.status != Deleted
  }

  /** On the posts the toggle is offered for, toggling twice restores the
      status. */
  lemma NextStatusTwice(s: Status)
    requires s != Deleted
    ensures NextStatus(NextStatus(s)) == s
  {
  }

  /** The ids of a list of posts, in order. */
  function Ids(posts: seq<PostRow>): seq<string> {
    seq(|posts|, i requires 0 <= i < |posts| => posts[i].id)
  }

  /** No two rows share an id, as for rows of one table. */
  predicate UniqueIds(posts: seq<PostRow>) {
    forall i, j :: 0 <= i < j < |posts| ==> posts[i].id != posts[j].id
  }

  /** `prev.map(p => p.id === id ? { ...p, status: s } : p)` */
  function WithStatus(posts: seq<PostRow>, id: string, s: Status): (r: seq<PostRow>)
    ensures |r| == |posts| && Ids(r) == Ids(posts)
    ensures forall i :: 0 <= i < |r| ==> r[i].(status := posts[i].status) == posts[i]
    ensures forall i :: 0 <= i < |r| && posts[i].id != id ==> r[i] == posts[i]
    ensures forall i :: 0 <= i < |r| && posts[i].id == id ==> r[i].status == s
  {
    seq(|posts|, i requires 0 <= i < |posts| => if posts[i].id == id then posts[i].(status := s) else posts[i])
  }

  /** Toggling the post at index `i` of a list with distinct ids changes that
      row's status and nothing else: every other row, the length and the
      order stay as they were. */
  lemma ToggleChangesOneRow(posts: seq<PostRow>, i: nat)
    requires UniqueIds(posts) && i < |posts|
    ensures var r := WithStatus(posts, posts[i].id, NextStatus(posts[i].status));
            |r| == |posts|
            && r[i] == posts[i].(status := NextStatus(posts[i].status))
            && forall j :: 0 <= j < |posts| && j != i ==> r[j] == posts[j]
  {
    var r := WithStatus(posts, posts[i].id, NextStatus(posts[i].status));
    forall j | 0 <= j < |posts| && j != i
      ensures r[j] == posts[j]
    {
      if j < i {
        assert posts[j].id != posts[i].id;
      } else {
        assert posts[i].id != posts[j].id;
      }
    }
  }

  /** Two clicks on the same (not deleted) post restore the list. */
  lemma ToggleTwiceRestores(posts: seq<PostRow>, i: nat)
    requires UniqueIds(posts) && i < |posts| && ToggleOffered(posts[i])
    ensures var once := WithStatus(posts, posts[i].id, NextStatus(posts[i].status));
            WithStatus(once, once[i].id, NextStatus(once[i].status)) == posts
  {
    var once := WithStatus(posts, posts[i].id, NextStatus(posts[i].status));
    ToggleChangesOneRow(posts, i);
    assert UniqueIds(once) by {
      assert forall j :: 0 <= j < |once| ==> once[j].id == Ids(once)[j] == Ids(posts)[j] == posts[j].id;
    }
    ToggleChangesOneRow(once, i);
    var twice := WithStatus(once, once[i].id, NextStatus(once[i].status));
    assert twice[i] == posts[i];
    assert forall j :: 0 <= j < |posts| ==> twice[j] == posts[j];
  }

  class ProfileView {
    var loading: bool
    var email: Option<string>
    var profile: Option<ProfileRow>
    var posts: seq<PostRow>
    var err: Option<string>

    constructor ()
      ensures loading && email == None && profile == None && posts == [] && err == None
    {
      loading := true;
      email := None;
      profile := None;
      posts := [];
      err := None;
    }

    /** The mount effect. `user` is the session's user, `prof` the answer of
        the profile query (`None` for no row) and `posts` the answer of the
        query for the user's posts. Without a user the page sends the
        browser to the sign-in page and stays loading. */
    method Load(user: Option<User>, prof: Result<Option<ProfileRow>, QueryError>,
                mine: Result<Option<seq<PostRow>>, QueryError>, encode: string -> string)
      returns (redirect: Option<string>)
      modifies this`loading, this`email, this`profile, this`posts, this`err
      ensures user.None? ==> redirect == Some(LoginUrl("/profil", encode)) && IsInternalPath(redirect.value)
      ensures user.None? ==> loading && err == None && email == old(email)
                             && profile == old(profile) && posts == old(posts)
      ensures user.Some? ==> redirect == None && email == user.value.email && !loading
      ensures user.Some? && prof.Failure? ==>
                err == Some(prof.error.message) && profile == old(profile) && posts == old(posts)
      ensures user.Some? && prof.Success? ==>
                profile == Some(prof.value.GetOr(ProfileRow(user.value.id, None)))
      ensures user.Some? && prof.Success? && mine.Failure? ==>
                err == Some(mine.error.message) && posts == old(posts)
      ensures user.Some? && prof.Success? && mine.Success? ==>
                err == None && posts == mine.value.GetOr([])
    {
      err := None;
      loading := true;
      if user.None? {
        LoginUrlIsInternal("/profil", encode);
        return Some(LoginUrl("/profil", encode));
      }
      redirect := None;
      email := user.value.email;
      if prof.Failure? {
        err := Some(prof.error.message);
        loading := false;
        return;
      }
      profile := Some(prof.value.GetOr(ProfileRow(user.value.id, None)));
      if mine.Failure? {
        err := Some(mine.error.message);
        loading := false;
        return;
      }
      posts := mine.value.GetOr([]);
      loading := false;
    }

    /** `toggleStatus(post)`, given the update's error (`None` when it
        succeeded): a failure shows its message and keeps the list, a success
        writes the next status into the rows with the post's id. */
    method ToggleStatus(post: PostRow, updateError: Option<QueryError>)
      modifies this`posts, this`err
      ensures updateError.Some? ==> err == Some(updateError.value.message) && posts == old(posts)
      ensures updateError.None? ==>
                err == old(err) && posts == WithStatus(old(posts), post.id, NextStatus(post.status))
    {
      var nextStatus := NextStatus(post.status);
      if updateError.Some? {
        err := Some(updateError.value.message);
        return;
      }
      posts := WithStatus(posts, post.id, nextStatus);
    }
  }
}
