/** Username allocation: the smallest free numeric suffix, the prefix filter, and
    the retry loop around the unique index. */
module Usernames {
  import opened Common
  import opened Numerals

  /** The n-th candidate: the bare root, then root2, root3, … */
  function Candidate(root: string, n: nat): string
    requires n >= 1
  {
    if n == 1 then root else root + Decimal(n)
  }

  /** `n` is the first candidate not taken. */
  ghost predicate IsFirstFree(root: string, taken: set<string>, n: nat) {
    n >= 1 && Candidate(root, n) !in taken && forall m: nat :: 1 <= m < n ==> Candidate(root, m) in taken
  }

  lemma CandidatesDiffer(root: string, m: nat, n: nat)
    requires m >= 1 && n >= 1 && Candidate(root, m) == Candidate(root, n)
    ensures m == n
  {
    if m > 1 && n > 1 {
      assert (root + Decimal(m))[|root|..] == Decimal(m);
      assert (root + Decimal(n))[|root|..] == Decimal(n);
      DecimalInjective(m, n);
    }
  }

  lemma CandidateHasRoot(root: string, n: nat)
    requires n >= 1
    ensures root <= Candidate(root, n)
  {
  }

  /** The search. It ends, because every taken candidate uses up a taken name; the
      result is the first free candidate and its suffix is at most |taken| + 1. */
  method FirstFreeUsername(base: string, taken: set<string>) returns (name: string)
    ensures exists n: nat :: n <= |taken| + 1 && PickedAt(RootOf(base), taken, name, n)
  {
    var root := if base == "" then "user" else base;
    assert root == RootOf(base);
    if root !in taken {
      assert PickedAt(root, taken, root, 1);
      return root;
    }
    var suffix: nat := 2;
    ghost var unused := taken - {root};
    assert Candidate(root, 1) == root;
    while root + Decimal(suffix) in taken
      invariant suffix >= 2 && unused <= taken
      invariant forall m: nat :: 1 <= m < suffix ==> Candidate(root, m) in taken && Candidate(root, m) !in unused
      invariant forall u :: u in taken && u !in unused ==> exists m: nat :: 1 <= m < suffix && u == Candidate(root, m)
      invariant |taken| == |unused| + suffix - 1
      decreases |unused|
    {
      ghost var here := Candidate(root, suffix);
      if here !in unused {
        var m: nat :| 1 <= m < suffix && here == Candidate(root, m);
        CandidatesDiffer(root, m, suffix);
      }
      unused := unused - {here};
      suffix := suffix + 1;
    }
    name := root + Decimal(suffix);
    assert PickedAt(root, taken, name, suffix);
  }

  /** Searching only the names that start with the root gives the same answer as
      searching all names. */
  lemma PrefixFilterExact(root: string, all: set<string>, n: nat)
    ensures IsFirstFree(root, (set u | u in all && root <= u), n) <==> IsFirstFree(root, all, n)
  {
    if n >= 1 {
      CandidateHasRoot(root, n);
    }
    forall m: nat | 1 <= m < n
      ensures Candidate(root, m) in all <==> Candidate(root, m) in (set u | u in all && root <= u)
    {
      CandidateHasRoot(root, m);
    }
  }

  // ----- the user table -----

  datatype User = User(username: string, email: Option<string>)

  /** `Retry` stays inside the loop. */
  datatype CreateError = EmailInUse | UsernameConflict | Retry

  ghost predicate UniqueNames(users: map<Id, User>) {
    forall a, b :: a in users && b in users && users[a].username == users[b].username ==> a == b
  }

  function Names(users: map<Id, User>): set<string> { set id | id in users :: users[id].username }

  function Emails(users: map<Id, User>): set<string> {
    set id | id in users && users[id].email.Some? :: users[id].email.value
  }

  function RootOf(base: string): string { if base == "" then "user" else base }

  /** `name` is the n-th candidate and the first free one. */
  ghost predicate PickedAt(root: string, taken: set<string>, name: string, n: nat) {
    IsFirstFree(root, taken, n) && name == Candidate(root, n)
  }

  ghost predicate IsPick(root: string, taken: set<string>, name: string) {
    exists n: nat :: PickedAt(root, taken, name, n)
  }

  /** The table after the rivals of the first `k` attempts. */
  function Grown(users: map<Id, User>, rivals: seq<map<Id, User>>, k: nat): map<Id, User>
    requires k <= |rivals|
  {
    if k == 0 then users else Joined(Grown(users, rivals, k - 1), rivals[k - 1])
  }

  lemma FilteredPick(root: string, all: set<string>, taken: set<string>, name: string)
    requires taken == (set u | u in all && root <= u) && IsPick(root, taken, name)
    ensures IsPick(root, all, name) && name !in all
  {
    var n: nat :| PickedAt(root, taken, name, n);
    PrefixFilterExact(root, all, n);
    assert PickedAt(root, all, name, n);
  }

  class UsersService {
    var users: map<Id, User>

    constructor ()
      ensures users == map[] && UniqueNames(users)
    {
      users := map[];
    }

    /** Reads the names sharing the base and picks the first free one. */
    method GenerateUsername(base: string) returns (name: string)
      ensures IsPick(RootOf(base), Names(users), name) && name !in Names(users)
    {
      var root := if base == "" then "user" else base;
      var taken := set id | id in users && root <= users[id].username :: users[id].username;
      name := FirstFreeUsername(root, taken);
      assert |"user"| == 4 && root != "";
      FilteredPick(root, Names(users), taken, name);
    }

    /** Up to five attempts. `rivals[k]` are the users other requests insert between
        the read and the insert of attempt k. Attempt k tries the first free name as
        it read the table; every attempt before the last lost its name to a rival,
        and the last one decides. */
    method Create(id: Id, base: string, email: Option<string>, rivals: seq<map<Id, User>>)
      returns (r: Result<string, CreateError>, ghost n: nat, ghost name: string)
      requires UniqueNames(users) && id !in users && |rivals| == 5
      requires forall k :: 0 <= k < 5 ==> id !in rivals[k] && UniqueNames(rivals[k])
      modifies this
      ensures UniqueNames(users)
      ensures n < 5 && forall k :: 0 <= k < n ==> LostAt(RootOf(base), old(users), rivals, k)
      ensures Decided(RootOf(base), Grown(old(users), rivals, n), rivals[n], n == 4, name, id, email, r, users)
    {
      n := 0;
      ghost var start := users;
      for attempt := 0 to 5
        invariant n == attempt <= 4 && UniqueNames(users) && id !in users
        invariant users == Grown(start, rivals, attempt)
        invariant forall k :: 0 <= k < attempt ==> LostAt(RootOf(base), start, rivals, k)
      {
        r, name := Attempt(id, base, email, rivals[attempt], attempt == 4);
        if r != Err(Retry) {
          return;
        }
        assert LostAt(RootOf(base), start, rivals, attempt);
        n := n + 1;
      }
      assert false;
    }

    /** One attempt; a username conflict is retried unless this was the last one. */
    method Attempt(id: Id, base: string, email: Option<string>, rivals: map<Id, User>, last: bool)
      returns (r: Result<string, CreateError>, ghost name: string)
      requires UniqueNames(users) && id !in users && id !in rivals && UniqueNames(rivals)
      modifies this
      ensures UniqueNames(users)
      ensures r == Err(Retry) ==>
                !last && Lost(RootOf(base), old(users), rivals, name) && users == Joined(old(users), rivals) &&
                    id !in users
      ensures r != Err(Retry) ==> Decided(RootOf(base), old(users), rivals, last, name, id, email, r, users)
    {
      var picked := GenerateUsername(base);
      name := picked;
      ghost var before := users;
      JoinedUnique(users, rivals);
      users := Joined(users, rivals);
      var names := set u | u in users :: users[u].username;
      if picked in names {
        TakenByRival(before, rivals, name);
        return Err(if last then UsernameConflict else Retry), name;
      }
      var emails := set u | u in users && users[u].email.Some? :: users[u].email.value;
      if email.Some? && email.value in emails {
        return Err(EmailInUse), name;
      }
      UniqueWith(users, id, User(picked, email));
      users := users[id := User(picked, email)];
      r := Ok(picked);
    }
  }

  /** The attempt that read `users` picked its first free name and lost it. */
  ghost predicate Lost(root: string, users: map<Id, User>, rivals: map<Id, User>, name: string) {
    IsPick(root, Names(users), name) && name in Names(Joined(users, rivals)) && name in Names(rivals)
  }

  ghost predicate LostAt(root: string, users: map<Id, User>, rivals: seq<map<Id, User>>, k: nat)
    requires k < |rivals|
  {
    exists name :: Lost(root, Grown(users, rivals, k), rivals[k], name)
  }

  /** The attempt that read `users` picked its first free name, and the outcome: the
      name is inserted unless it, on the last attempt, or the email is taken. */
  ghost predicate Decided(root: string, users: map<Id, User>, rivals: map<Id, User>, last: bool, name: string,
                          id: Id, email: Option<string>, r: Result<string, CreateError>, after: map<Id, User>) {
    var seen := Joined(users, rivals);
    && IsPick(root, Names(users), name)
    && (name in Names(seen) ==> last && name in Names(rivals))
    && r == (if name in Names(seen) then Err(UsernameConflict)
             else if email.Some? && email.value in Emails(seen) then Err(EmailInUse)
             else Ok(name))
    && after == if r.Ok? then seen[id := User(name, email)] else seen
  }

  lemma UniqueWith(users: map<Id, User>, id: Id, user: User)
    requires UniqueNames(users) && user.username !in Names(users)
    ensures UniqueNames(users[id := user])
  {
    assert forall k :: k in users ==> users[k].username in Names(users);
  }

  /** Users others inserted, subject to the unique index: a name already present is
      not inserted again. */
  function Joined(users: map<Id, User>, rivals: map<Id, User>): map<Id, User> {
    users + map id | id in rivals && id !in users && rivals[id].username !in Names(users) :: rivals[id]
  }

  lemma JoinedUnique(users: map<Id, User>, rivals: map<Id, User>)
    requires UniqueNames(users) && UniqueNames(rivals)
    ensures UniqueNames(Joined(users, rivals))
  {
    assert forall id :: id in users ==> users[id].username in Names(users);
  }

  lemma TakenByRival(users: map<Id, User>, rivals: map<Id, User>, name: string)
    requires name !in Names(users) && name in Names(Joined(users, rivals))
    ensures name in Names(rivals)
  {
    var id :| id in Joined(users, rivals) && Joined(users, rivals)[id].username == name;
    assert id in rivals && rivals[id].username == name;
  }
}
