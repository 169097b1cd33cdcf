/** The two handlers of the page layout that change stores: renaming the signed-in user
    behind a length guard, and deleting the account, which clears the user's records
    from the task, social and community stores before it clears the session. */
module Layout {
  import opened Common
  import Todos
  import Social
  import Communities
  import Auth

  /** The longest name `handleUpdateName` accepts, measured before trimming. */
  const MaxNameLength: nat := 10

  /** The characters `String.prototype.trim` removes: ECMAScript's white space and
      line terminators. */
  predicate IsWhitespace(c: char)
  {
    c == '\t' || c == '\n' || c == '\U{B}' || c == '\U{C}' || c == '\r' || c == ' ' ||
    c == '\U{A0}' || c == '\U{1680}' || ('\U{2000}' <= c <= '\U{200A}') ||
    c == '\U{2028}' || c == '\U{2029}' || c == '\U{202F}' || c == '\U{205F}' ||
    c == '\U{3000}' || c == '\U{FEFF}'
  }

  /** How many characters of white space `s` starts with. */
  function LeadingBlanks(s: string): (n: nat)
    ensures n <= |s|
    ensures forall i :: 0 <= i < n ==> IsWhitespace(s[i])
    ensures n < |s| ==> !IsWhitespace(s[n])
  {
    if s != [] && IsWhitespace(s[0]) then 1 + LeadingBlanks(s[1..]) else 0
  }

  /** How many characters of white space `s` ends with. */
  function TrailingBlanks(s: string): (n: nat)
    ensures n <= |s|
    ensures forall i :: |s| - n <= i < |s| ==> IsWhitespace(s[i])
    ensures n < |s| ==> !IsWhitespace(s[|s| - n - 1])
  {
    if s != [] && IsWhitespace(s[|s| - 1]) then 1 + TrailingBlanks(s[..|s| - 1]) else 0
  }

  /** `s.trim()`: the slice of `s` that starts after its leading white space, with only
      white space outside it; empty exactly when `s` is all white space, and otherwise
      starting and ending with a character that is not. */
  function Trim(s: string): (r: string)
    ensures var a := LeadingBlanks(s);
            a + |r| <= |s| && r == s[a..a + |r|] &&
            forall i :: 0 <= i < a || a + |r| <= i < |s| ==> IsWhitespace(s[i])
    ensures r == [] <==> forall i :: 0 <= i < |s| ==> IsWhitespace(s[i])
    ensures r != [] ==> !IsWhitespace(r[0]) && !IsWhitespace(r[|r| - 1])
  {
    var a := LeadingBlanks(s);
    if a == |s| then [] else s[a..|s| - TrailingBlanks(s)]
  }

  /** Trimming twice trims no more than trimming once. */
  lemma TrimIdempotent(s: string)
    ensures Trim(Trim(s)) == Trim(s)
  {
    var r := Trim(s);
    if r != [] {
      assert LeadingBlanks(r) == 0 && TrailingBlanks(r) == 0;
      assert r[0..|r|] == r;
    }
  }

  /** What the user sees after pressing save on a new name. */
  datatype NameOutcome =
    | Renamed      // the store was updated with the trimmed name
    | NameTooLong  // the error toast; nothing changes
    | Ignored      // a blank name: no message, nothing changes

  /** `handleUpdateName`: renames only when the trimmed name is not empty and the name as
      typed is at most ten characters long. */
  method HandleUpdateName(auth: Auth.AuthStore, newName: string) returns (r: NameOutcome)
    requires auth.Valid()
    modifies auth
    ensures auth.Valid()
    ensures r == Renamed <==> Trim(newName) != "" && |newName| <= MaxNameLength
    ensures r == NameTooLong <==> |newName| > MaxNameLength
    ensures r == Renamed ==>
              auth.user == (if old(auth.user).Some?
                            then Some(old(auth.user).value.(name := Trim(newName)))
                            else None) &&
              auth.isAuthenticated == old(auth.isAuthenticated) &&
              auth.credentials == old(auth.credentials)
    ensures r != Renamed ==>
              auth.user == old(auth.user) && auth.isAuthenticated == old(auth.isAuthenticated) &&
              auth.credentials == old(auth.credentials)
  {
    if Trim(newName) != "" && |newName| <= MaxNameLength {
      auth.UpdateUsername(Trim(newName));
      r := Renamed;
    } else if |newName| > MaxNameLength {
      r := NameTooLong;
    } else {
      r := Ignored;
    }
  }

  /** `handleDeleteAccount`: with nobody signed in, nothing happens. Otherwise, in this
      order: the user's tasks, the user's posts and every follow edge at either end,
      the user's community memberships, and last the session and its credential. */
  method HandleDeleteAccount(auth: Auth.AuthStore, todos: Todos.TodoStore,
                             social: Social.SocialStore, communities: Communities.CommunityStore)
    requires auth.Valid() && communities.Valid()
    modifies auth, todos, social, communities
    ensures auth.Valid() && communities.Valid()
    ensures old(auth.user).None? ==>
              auth.user == old(auth.user) && auth.credentials == old(auth.credentials) &&
              auth.isAuthenticated == old(auth.isAuthenticated) &&
              todos.todos == old(todos.todos) &&
              social.tweets == old(social.tweets) && social.follows == old(social.follows) &&
              communities.communities == old(communities.communities)
    ensures old(auth.user).Some? ==>
              var id := old(auth.user).value.id;
              todos.todos == Todos.WithoutOwner(old(todos.todos), id) &&
              social.tweets == Social.WithoutAuthor(old(social.tweets), id) &&
              social.follows == Social.WithoutEdgesOf(old(social.follows), id) &&
              communities.communities == Communities.LeaveAll(old(communities.communities), id) &&
              auth.user == None && !auth.isAuthenticated &&
              auth.credentials == old(auth.credentials) - {old(auth.user).value.email}
    // no task, post, follow edge or membership under the current id is left behind
    ensures old(auth.user).Some? ==>
              var id := old(auth.user).value.id;
              (forall t :: t in todos.todos ==> t.userId != id) &&
              (forall t :: t in social.tweets ==> t.author.id != id) &&
              (forall f :: f in social.follows ==> f.followerId != id && f.followingId != id) &&
              (forall c :: c in communities.communities ==> id !in c.members)
    // and nothing of anyone else's is lost
    ensures old(auth.user).Some? ==>
              var id := old(auth.user).value.id;
              (forall t :: t in old(todos.todos) && t.userId != id ==> t in todos.todos) &&
              (forall t :: t in old(social.tweets) && t.author.id != id ==> t in social.tweets) &&
              (forall f :: f in old(social.follows) && f.followerId != id && f.followingId != id ==>
                 f in social.follows)
  {
    if auth.user.None? {
      return;
    }
    var id := auth.user.value.id;
    todos.DeleteTodosByUser(id);
    social.DeleteUserContent(id);
    communities.RemoveUserFromAllCommunities(id);
    auth.DeleteAccount();
  }
}
