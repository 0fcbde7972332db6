/** Refresh-token rotation over the per-user Redis key. The check of a refresh and
    the store of a new token are separate awaited steps, so requests interleave; a
    jti is generated before the await that signs its token and stored after it. */
module RefreshTokens {
  import opened Common

  type User = Id
  type Jti = string

  /** What the key `refresh:<user>` holds: the current jti, until it expires. */
  datatype Entry = Entry(jti: Jti, expires: int)

  datatype State = State(
    store: map<User, Entry>,
    now: int,
    checked: map<Id, User>,          // requests past login or past the refresh check
    minted: map<Id, (User, Jti)>,    // requests that generated a jti not yet stored
    log: seq<(User, Jti)>,           // bookkeeping of this model: every store, in order
    used: set<Jti>)                  // bookkeeping of this model: every jti generated

  /** The check of `refresh`: the key exists, has not expired and holds this jti. */
  predicate Accepts(s: State, u: User, j: Jti) {
    u in s.store && s.now < s.store[u].expires && s.store[u].jti == j
  }

  datatype Action =
    | Login(req: Id, user: User)                  // credentials verified
    | Check(req: Id, user: User, jti: Jti)        // a signed refresh token presented
    | Refuse(req: Id)                             // account no longer active
    | Mint(req: Id, jti: Jti)
    | Put(req: Id, ttl: nat)
    | Logout(user: User)
    | Tick(ms: nat)

  ghost predicate Enabled(s: State, a: Action) {
    match a
    case Login(req, _) => req !in s.checked && req !in s.minted
    case Check(req, _, _) => req !in s.checked && req !in s.minted
    case Refuse(req) => req in s.checked
    case Mint(req, jti) => req in s.checked && jti !in s.used
    case Put(req, _) => req in s.minted
    case Logout(_) => true
    case Tick(_) => true
  }

  function Apply(s: State, a: Action): State
    requires Enabled(s, a)
  {
    match a
    case Login(req, user) => s.(checked := s.checked[req := user])
    case Check(req, user, jti) => if Accepts(s, user, jti) then s.(checked := s.checked[req := user]) else s
    case Refuse(req) => s.(checked := s.checked - {req})
    case Mint(req, jti) =>
      s.(checked := s.checked - {req}, minted := s.minted[req := (s.checked[req], jti)], used := s.used + {jti})
    case Put(req, ttl) =>
      var (user, jti) := s.minted[req];
      s.(minted := s.minted - {req}, store := s.store[user := Entry(jti, s.now + ttl)], log := s.log + [(user, jti)])
    case Logout(user) => s.(store := s.store - {user})
    case Tick(ms) => s.(now := s.now + ms)
  }

  ghost predicate Init(s: State) {
    s.store == map[] && s.checked == map[] && s.minted == map[] && s.log == [] && s.used == {}
  }

  ghost predicate Step(s: State, s': State) {
    exists a :: Enabled(s, a) && s' == Apply(s, a)
  }

  ghost predicate StepAt(trace: seq<State>, i: int) {
    0 <= i < |trace| - 1 && Step(trace[i], trace[i + 1])
  }

  ghost predicate IsRun(trace: seq<State>) {
    && trace != [] && Init(trace[0])
    && forall i {:trigger StepAt(trace, i)} :: 0 <= i < |trace| - 1 ==> StepAt(trace, i)
  }

  /** The last position at which something was stored for the user. */
  ghost predicate LastStore(log: seq<(User, Jti)>, u: User, i: nat) {
    i < |log| && log[i].0 == u && forall k :: i < k < |log| ==> log[k].0 != u
  }

  ghost predicate Inv(s: State) {
    // what a key holds is the last thing stored for its user
    && (forall u :: u in s.store ==> exists i: nat :: LastStore(s.log, u, i) && s.log[i].1 == s.store[u].jti)
    // jtis are generated once and stored at most once
    && (forall i, k :: 0 <= i < k < |s.log| ==> s.log[i].1 != s.log[k].1)
    && (forall i :: 0 <= i < |s.log| ==> s.log[i].1 in s.used)
    && (forall r :: r in s.minted ==>
          s.minted[r].1 in s.used && forall i :: 0 <= i < |s.log| ==> s.log[i].1 != s.minted[r].1)
    && (forall r, q :: r in s.minted && q in s.minted && s.minted[r].1 == s.minted[q].1 ==> r == q)
  }

  lemma PutKeeps(s: State, req: Id, ttl: nat)
    requires Inv(s) && Enabled(s, Put(req, ttl))
    ensures Inv(Apply(s, Put(req, ttl)))
  {
    var (user, jti) := s.minted[req];
    var s' := Apply(s, Put(req, ttl));
    forall u | u in s'.store
      ensures exists i: nat :: LastStore(s'.log, u, i) && s'.log[i].1 == s'.store[u].jti
    {
      if u == user {
        assert LastStore(s'.log, u, |s.log|);
      } else {
        var i: nat :| LastStore(s.log, u, i) && s.log[i].1 == s.store[u].jti;
        assert LastStore(s'.log, u, i);
      }
    }
  }

  lemma StepKeeps(s: State, a: Action)
    requires Inv(s) && Enabled(s, a)
    ensures Inv(Apply(s, a))
  {
    match a
    case Put(req, ttl) => PutKeeps(s, req, ttl);
    case _ =>
  }

  lemma AnyStepKeeps(s: State, s': State)
    requires Inv(s) && Step(s, s')
    ensures Inv(s')
  {
    var a :| Enabled(s, a) && s' == Apply(s, a);
    StepKeeps(s, a);
  }

  lemma {:induction false} RunKeeps(trace: seq<State>, n: nat)
    requires IsRun(trace) && n < |trace|
    ensures Inv(trace[n])
  {
    if n == 0 {
    } else {
      RunKeeps(trace, n - 1);
      assert StepAt(trace, n - 1);
      AnyStepKeeps(trace[n - 1], trace[n]);
    }
  }

  /** In every reachable state at most one token of a user passes the check, and it
      is the last one stored for that user. */
  lemma OneTokenPasses(trace: seq<State>, n: nat, u: User, j: Jti)
    requires IsRun(trace) && n < |trace| && Accepts(trace[n], u, j)
    ensures exists i: nat :: LastStore(trace[n].log, u, i) && trace[n].log[i].1 == j
    ensures forall k :: Accepts(trace[n], u, k) ==> k == j
  {
    RunKeeps(trace, n);
  }

  /** The token was stored for the user at some time. */
  ghost predicate WasStored(s: State, u: User, j: Jti) {
    exists i: nat :: i < |s.log| && s.log[i] == (u, j)
  }

  /** A token that is dead in this state is dead after any step. */
  lemma DeadStep(s: State, a: Action, u: User, j: Jti)
    requires Inv(s) && Enabled(s, a) && WasStored(s, u, j) && !Accepts(s, u, j)
    ensures WasStored(Apply(s, a), u, j) && !Accepts(Apply(s, a), u, j)
  {
    var i: nat :| i < |s.log| && s.log[i] == (u, j);
    assert Apply(s, a).log[i] == (u, j);
  }

  lemma DeadAnyStep(s: State, s': State, u: User, j: Jti)
    requires Inv(s) && Step(s, s') && WasStored(s, u, j) && !Accepts(s, u, j)
    ensures WasStored(s', u, j) && !Accepts(s', u, j)
  {
    var a :| Enabled(s, a) && s' == Apply(s, a);
    DeadStep(s, a, u, j);
  }

  /** Once stored and then overwritten, deleted or expired, a jti is never accepted
      again, in any continuation of the run. */
  lemma {:induction false} DeadForever(trace: seq<State>, m: nat, n: nat, u: User, j: Jti)
    requires IsRun(trace) && m <= n < |trace|
    requires WasStored(trace[m], u, j) && !Accepts(trace[m], u, j)
    ensures WasStored(trace[n], u, j) && !Accepts(trace[n], u, j)
    decreases n
  {
    if m == n {
    } else {
      DeadForever(trace, m, n - 1, u, j);
      DeadAt(trace, n - 1, u, j);
    }
  }

  lemma DeadAt(trace: seq<State>, k: nat, u: User, j: Jti)
    requires IsRun(trace) && k + 1 < |trace|
    requires WasStored(trace[k], u, j) && !Accepts(trace[k], u, j)
    ensures WasStored(trace[k + 1], u, j) && !Accepts(trace[k + 1], u, j)
  {
    RunKeeps(trace, k);
    assert StepAt(trace, k);
    DeadAnyStep(trace[k], trace[k + 1], u, j);
  }

  /** Rotation: storing a new token kills the user's previous one, unless they are
      the same token; other users keep theirs. */
  lemma PutRotates(s: State, req: Id, ttl: nat, v: User, j: Jti)
    requires Inv(s) && Enabled(s, Put(req, ttl)) && Accepts(s, v, j)
    ensures var (u, fresh_) := s.minted[req];
            Accepts(Apply(s, Put(req, ttl)), v, j) <==> v != u
  {
    var i: nat :| LastStore(s.log, v, i) && s.log[i].1 == s.store[v].jti;
  }

  // ----- overlapping requests -----

  /** One token may pass the check twice before its successor is stored. Both refreshes
      then succeed, and only the token stored last is accepted afterwards. */
  lemma OneTokenTwoRefreshes(s: State, u: User, j: Jti, r: Id, q: Id, j1: Jti, j2: Jti, ttl: nat)
    requires Accepts(s, u, j) && r != q && ttl > 0
    requires r !in s.checked && r !in s.minted && q !in s.checked && q !in s.minted
    requires j1 !in s.used && j2 !in s.used && j1 != j2 && j in s.used
    ensures Enabled(s, Check(r, u, j)) && Enabled(Apply(s, Check(r, u, j)), Check(q, u, j))
    ensures var both := Apply(Apply(s, Check(r, u, j)), Check(q, u, j));
            && both.checked == s.checked[r := u][q := u] && Accepts(both, u, j)
            && Enabled(both, Mint(r, j1)) && Enabled(Apply(both, Mint(r, j1)), Mint(q, j2))
    ensures var minted := Apply(Apply(Apply(Apply(s, Check(r, u, j)), Check(q, u, j)), Mint(r, j1)), Mint(q, j2));
            && Enabled(minted, Put(r, ttl)) && Enabled(Apply(minted, Put(r, ttl)), Put(q, ttl))
            && var after := Apply(Apply(minted, Put(r, ttl)), Put(q, ttl));
               forall k :: Accepts(after, u, k) <==> k == j2
  {
  }

  /** The token a user holds was stored no earlier than `m`. */
  ghost predicate HeldSince(s: State, u: User, m: nat) {
    u in s.store ==> exists i: nat :: m <= i && LastStore(s.log, u, i) && s.log[i].1 == s.store[u].jti
  }

  lemma HeldSinceStep(s: State, a: Action, u: User, m: nat)
    requires Enabled(s, a) && m <= |s.log| && HeldSince(s, u, m)
    ensures m <= |Apply(s, a).log| && HeldSince(Apply(s, a), u, m)
  {
    var s' := Apply(s, a);
    if a.Put? && s.minted[a.req].0 == u {
      assert LastStore(s'.log, u, |s.log|);
    } else if u in s'.store {
      var i: nat :| m <= i && LastStore(s.log, u, i) && s.log[i].1 == s.store[u].jti;
      assert LastStore(s'.log, u, i);
    }
  }

  lemma HeldSinceAnyStep(s: State, s': State, u: User, m: nat)
    requires Step(s, s') && m <= |s.log| && HeldSince(s, u, m)
    ensures m <= |s'.log| && HeldSince(s', u, m)
  {
    var a :| Enabled(s, a) && s' == Apply(s, a);
    HeldSinceStep(s, a, u, m);
  }

  lemma {:induction false} HeldSinceLogout(trace: seq<State>, m: nat, n: nat, u: User)
    requires IsRun(trace) && m <= n < |trace| && u !in trace[m].store
    ensures |trace[m].log| <= |trace[n].log| && HeldSince(trace[n], u, |trace[m].log|)
    decreases n
  {
    if m == n {
    } else {
      HeldSinceLogout(trace, m, n - 1, u);
      assert StepAt(trace, n - 1);
      HeldSinceAnyStep(trace[n - 1], trace[n], u, |trace[m].log|);
    }
  }

  /** After a logout, a token of the user is accepted exactly when it is the last one
      stored for the user, was stored after the logout, and has been neither removed
      nor outlived since. */
  lemma AcceptedAfterLogoutIff(trace: seq<State>, m: nat, n: nat, u: User, j: Jti)
    requires IsRun(trace) && m <= n < |trace| && u !in trace[m].store
    ensures Accepts(trace[n], u, j) <==>
            && u in trace[n].store && trace[n].now < trace[n].store[u].expires
            && exists i: nat :: |trace[m].log| <= i && LastStore(trace[n].log, u, i) && trace[n].log[i].1 == j
  {
    HeldSinceLogout(trace, m, n, u);
  }

  // ----- who can store after a logout -----

  /** Some request of the user is past its login or its refresh check and has not stored
      its token. */
  ghost predicate InFlight(s: State, u: User) {
    || (exists r :: r in s.checked && s.checked[r] == u)
    || (exists r :: r in s.minted && s.minted[r].0 == u)
  }

  /** A step that is no login of the user. */
  ghost predicate OtherStep(s: State, s': State, u: User) {
    exists a :: Enabled(s, a) && s' == Apply(s, a) && !(a.Login? && a.user == u)
  }

  ghost predicate OtherStepAt(path: seq<State>, i: int, u: User) {
    0 <= i < |path| - 1 && OtherStep(path[i], path[i + 1], u)
  }

  /** Steps from `s` on, none of them a login of the user. */
  ghost predicate NoLogin(path: seq<State>, s: State, u: User) {
    && path != [] && path[0] == s
    && forall i {:trigger OtherStepAt(path, i, u)} :: 0 <= i < |path| - 1 ==> OtherStepAt(path, i, u)
  }

  ghost predicate AcceptedInTheEnd(path: seq<State>, s: State, u: User, j: Jti) {
    NoLogin(path, s, u) && Accepts(path[|path| - 1], u, j)
  }

  lemma SilentStep(s: State, s': State, u: User)
    requires u !in s.store && !InFlight(s, u) && OtherStep(s, s', u)
    ensures u !in s'.store && !InFlight(s', u)
  {
    var a :| Enabled(s, a) && s' == Apply(s, a) && !(a.Login? && a.user == u);
  }

  lemma {:induction false} SilentPath(path: seq<State>, s: State, u: User, n: nat)
    requires NoLogin(path, s, u) && n < |path| && u !in s.store && !InFlight(s, u)
    ensures u !in path[n].store && !InFlight(path[n], u)
  {
    if n == 0 {
    } else {
      SilentPath(path, s, u, n - 1);
      assert OtherStepAt(path, n - 1, u);
      SilentStep(path[n - 1], path[n], u);
    }
  }

  lemma PutIsNoLogin(s: State, r: Id, u: User)
    requires r in s.minted && s.minted[r].0 == u
    ensures var s' := Apply(s, Put(r, 1)); OtherStep(s, s', u) && Accepts(s', u, s.minted[r].1)
  {
    assert Enabled(s, Put(r, 1));
  }

  lemma MintIsNoLogin(s: State, r: Id, u: User, j: Jti)
    requires r in s.checked && s.checked[r] == u && j !in s.used
    ensures var s' := Apply(s, Mint(r, j)); OtherStep(s, s', u) && r in s'.minted && s'.minted[r] == (u, j)
  {
    assert Enabled(s, Mint(r, j));
  }

  /** A request in flight can always go on to store a token that is accepted. */
  lemma FinishesLate(s: State, u: User) returns (path: seq<State>, j: Jti)
    requires InFlight(s, u)
    ensures AcceptedInTheEnd(path, s, u, j)
  {
    if r :| r in s.minted && s.minted[r].0 == u {
      PutIsNoLogin(s, r, u);
      path, j := [s, Apply(s, Put(r, 1))], s.minted[r].1;
    } else {
      var r :| r in s.checked && s.checked[r] == u;
      j := FreshId(s.used);
      MintIsNoLogin(s, r, u, j);
      var s1 := Apply(s, Mint(r, j));
      PutIsNoLogin(s1, r, u);
      path := [s, s1, Apply(s1, Put(r, 1))];
    }
  }

  /** Exactly when a logout does not end the user's session: unless the user logs in
      again, a token can be accepted later if and only if, at the logout, some login or
      refresh was past its check without having stored its token. */
  lemma AcceptedWithoutLoginIff(s: State, u: User)
    requires u !in s.store
    ensures (exists path, j :: AcceptedInTheEnd(path, s, u, j)) <==> InFlight(s, u)
  {
    if path, j :| AcceptedInTheEnd(path, s, u, j) {
      if !InFlight(s, u) {
        SilentPath(path, s, u, |path| - 1);
      }
    }
    if InFlight(s, u) {
      var path, j := FinishesLate(s, u);
    }
  }

  lemma GoOn(trace: seq<State>, a: Action) returns (longer: seq<State>)
    requires IsRun(trace) && Enabled(trace[|trace| - 1], a)
    ensures |longer| == |trace| + 1 && longer[..|trace|] == trace && IsRun(longer)
    ensures longer[|trace|] == Apply(trace[|trace| - 1], a)
  {
    longer := trace + [Apply(trace[|trace| - 1], a)];
    forall i | 0 <= i < |longer| - 1
      ensures StepAt(longer, i)
    {
      if i < |trace| - 1 {
        assert StepAt(trace, i);
      } else {
        assert Step(longer[i], longer[i + 1]);
      }
    }
  }

  /** A run in which `u` has logged in and a refresh with the token has passed its check. */
  lemma RefreshChecked() returns (trace: seq<State>)
    ensures IsRun(trace)
    ensures var s := trace[|trace| - 1];
            Accepts(s, "u", "j") && s.checked == map["q" := "u"] && s.minted == map[] && s.used == {"j"}
  {
    trace := [State(map[], 0, map[], map[], [], {})];
    trace := GoOn(trace, Login("r", "u"));
    trace := GoOn(trace, Mint("r", "j"));
    trace := GoOn(trace, Put("r", 1));
    trace := GoOn(trace, Check("q", "u", "j"));
    assert trace[|trace| - 1].checked == map["q" := "u"];
  }

  /** A refresh that passed its check before the logout stores its token after it, and
      that token is accepted. The step from `m` is the logout. */
  lemma RefreshOutlivesLogout() returns (trace: seq<State>, m: nat)
    ensures IsRun(trace) && m + 3 == |trace| - 1
    ensures Accepts(trace[m], "u", "j") && trace[m].checked == map["q" := "u"]
    ensures Enabled(trace[m], Logout("u")) && trace[m + 1] == Apply(trace[m], Logout("u"))
    ensures !Accepts(trace[m + 1], "u", "j") && Accepts(trace[|trace| - 1], "u", "k")
  {
    trace := RefreshChecked();
    m := |trace| - 1;
    trace := GoOn(trace, Logout("u"));
    trace := GoOn(trace, Mint("q", "k"));
    trace := GoOn(trace, Put("q", 1));
  }

  // ----- the service -----

  datatype AuthError = InvalidCredentials | NoLongerValid | NotActive

  /** The auth service over its store, one request at a time. */
  class AuthService {
    var store: map<User, Entry>
    var now: int
    ghost var log: seq<(User, Jti)>
    ghost var used: set<Jti>

    ghost function View(): State
      reads this
    {
      State(store, now, map[], map[], log, used)
    }

    constructor (now: int)
      ensures Init(View()) && this.now == now
    {
      this.store, this.now, log, used := map[], now, [], {};
    }

    /** Generates, signs and stores a token. */
    method IssueTokens(user: User, jti: Jti, ttl: nat)
      requires jti !in used
      modifies this
      ensures View() == old(View()).(store := old(store)[user := Entry(jti, now + ttl)],
                                     log := old(log) + [(user, jti)], used := old(used) + {jti})
    {
      used := used + {jti};
      store := store[user := Entry(jti, now + ttl)];
      log := log + [(user, jti)];
    }

    /** A login replaces whatever token the user had. */
    method Login(user: User, credentialsOk: bool, active: bool, jti: Jti, ttl: nat) returns (r: Result<Jti, AuthError>)
      requires jti !in used && Inv(View())
      modifies this
      ensures Inv(View())
      ensures r == if credentialsOk && active then Ok(jti) else Err(InvalidCredentials)
      ensures r.Err? ==> View() == old(View())
      ensures r.Ok? ==> forall j :: Accepts(View(), user, j) <==> j == jti && ttl > 0
      ensures r.Ok? ==> forall v, j :: v != user ==> (Accepts(View(), v, j) <==> old(Accepts(View(), v, j)))
    {
      if !credentialsOk || !active {
        return Err(InvalidCredentials);
      }
      IssueKeeps(View(), user, jti, ttl);
      IssueTokens(user, jti, ttl);
      r := Ok(jti);
    }

    /** A refresh succeeds exactly on the user's accepted token, and rotates it. */
    method Refresh(user: User, presented: Jti, active: bool, jti: Jti, ttl: nat) returns (r: Result<Jti, AuthError>)
      requires jti !in used && Inv(View())
      modifies this
      ensures Inv(View())
      ensures r.Ok? <==> old(Accepts(View(), user, presented)) && active
      ensures r == Err(NoLongerValid) <==> !old(Accepts(View(), user, presented))
      ensures r.Err? ==> View() == old(View())
      ensures r.Ok? ==> r.value == jti && !Accepts(View(), user, presented)
      ensures r.Ok? ==> forall j :: Accepts(View(), user, j) <==> j == jti && ttl > 0
    {
      var stored := if user in store && now < store[user].expires then Some(store[user].jti) else None;
      if stored.None? || stored.value != presented {
        return Err(NoLongerValid);
      }
      if !active {
        return Err(NotActive);
      }
      IssueKeeps(View(), user, jti, ttl);
      ghost var i: nat :| LastStore(log, user, i) && log[i].1 == store[user].jti;
      IssueTokens(user, jti, ttl);
      r := Ok(jti);
    }

    /** No token of the user passes after a logout; other users are unaffected. */
    method Logout(user: User)
      requires Inv(View())
      modifies this
      ensures Inv(View())
      ensures forall v, j :: Accepts(View(), v, j) <==> v != user && old(Accepts(View(), v, j))
    {
      store := store - {user};
    }
  }

  // ----- the service as steps -----

  /** The tokens of `s'` that pass are those of `s`, but for the user, whose only one is
      `jti`, while it lasts. */
  ghost predicate OnlyTokenOf(s: State, s': State, user: User, jti: Jti, ttl: nat) {
    && (forall j :: Accepts(s', user, j) <==> j == jti && ttl > 0)
    && (forall v, j :: v != user ==> (Accepts(s', v, j) <==> Accepts(s, v, j)))
  }

  /** A token being issued without interruption, to a request past its check. */
  lemma WholeIssueIsSteps(s: State, req: Id, user: User, jti: Jti, ttl: nat)
    requires req in s.checked && s.checked[req] == user && req !in s.minted && jti !in s.used
    ensures Enabled(s, Mint(req, jti)) && Enabled(Apply(s, Mint(req, jti)), Put(req, ttl))
    ensures var s' := Apply(Apply(s, Mint(req, jti)), Put(req, ttl));
            && OnlyTokenOf(s, s', user, jti, ttl)
            && s'.log == s.log + [(user, jti)] && s'.used == s.used + {jti}
            && s'.checked == s.checked - {req} && s'.minted == s.minted && s'.now == s.now
  {
  }

  /** A whole login or refresh can always begin; a login then issues a token, a refresh does
      so exactly when the token presented passes and the account is still active. What
      `AuthService` does in one go is what the steps do. */
  lemma WholeRequestsAreSteps(s: State, req: Id, user: User, presented: Jti)
    requires req !in s.checked && req !in s.minted
    ensures Enabled(s, Login(req, user)) && Apply(s, Login(req, user)) == s.(checked := s.checked[req := user])
    ensures Enabled(s, Check(req, user, presented))
    ensures Accepts(s, user, presented) ==> Apply(s, Check(req, user, presented)) == Apply(s, Login(req, user))
    ensures !Accepts(s, user, presented) ==> Apply(s, Check(req, user, presented)) == s
    ensures var begun := Apply(s, Login(req, user)); Enabled(begun, Refuse(req)) && Apply(begun, Refuse(req)) == s
    ensures Enabled(s, Logout(user))
    ensures forall v, j :: Accepts(Apply(s, Logout(user)), v, j) <==> v != user && Accepts(s, v, j)
  {
    assert s.checked[req := user] - {req} == s.checked;
  }

  /** Time passes at any moment, and a token passes until its entry expires. */
  lemma TokensExpire(s: State, ms: nat, v: User, j: Jti)
    ensures Enabled(s, Tick(ms))
    ensures Accepts(Apply(s, Tick(ms)), v, j) <==>
            v in s.store && s.store[v].jti == j && s.now + ms < s.store[v].expires
  {
  }

  lemma IssueKeeps(s: State, user: User, jti: Jti, ttl: nat)
    requires Inv(s) && s.checked == map[] && s.minted == map[] && jti !in s.used
    ensures Inv(s.(store := s.store[user := Entry(jti, s.now + ttl)], log := s.log + [(user, jti)],
            used := s.used + {jti}))
  {
    var s' := s.(store := s.store[user := Entry(jti, s.now + ttl)], log := s.log + [(user, jti)],
        used := s.used + {jti});
    forall u | u in s'.store
      ensures exists i: nat :: LastStore(s'.log, u, i) && s'.log[i].1 == s'.store[u].jti
    {
      if u == user {
        assert LastStore(s'.log, u, |s.log|);
      } else {
        var i: nat :| LastStore(s.log, u, i) && s.log[i].1 == s.store[u].jti;
        assert LastStore(s'.log, u, i);
      }
    }
  }
}
