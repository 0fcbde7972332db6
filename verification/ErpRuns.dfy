/** Runs that reach the states in which two awaited requests get in each other's way. */
module ErpRuns {
  import opened Common
  import D = Documents
  import T = Treasury
  import AD = AccountDefaults
  import opened Erp

  function Last(trace: seq<State>): State
    requires trace != []
  {
    trace[|trace| - 1]
  }

  /** `longer` is `trace` gone on. */
  ghost predicate Extends(trace: seq<State>, longer: seq<State>) {
    |trace| < |longer| && longer[..|trace|] == trace
  }

  lemma ExtendsOn(trace: seq<State>, longer: seq<State>, longest: seq<State>)
    requires Extends(trace, longer) && Extends(longer, longest)
    ensures Extends(trace, longest)
  {
    assert longest[..|trace|] == longest[..|longer|][..|trace|];
  }

  /** A run goes on with any enabled action. */
  lemma GoOn(trace: seq<State>, a: Action) returns (longer: seq<State>)
    requires IsRun(trace) && Enabled(Last(trace), a)
    ensures IsRun(longer) && Last(longer) == Apply(Last(trace), a)
    ensures Extends(trace, longer)
  {
    longer := trace + [Apply(Last(trace), a)];
    forall i | 0 <= i < |longer| - 1
      ensures StepAt(longer, i)
    {
      if i < |trace| - 1 {
        assert StepAt(trace, i);
      } else {
        assert Step(longer[i], longer[i + 1]);
      }
    }
  }

  lemma Pay(trace: seq<State>, c: T.Action) returns (longer: seq<State>)
    requires IsRun(trace) && Enabled(Last(trace), Cash(c))
    ensures IsRun(longer) && Last(longer).treasury == T.Apply(Last(trace).treasury, c)
    ensures Extends(trace, longer)
    ensures Last(longer).used == Last(trace).used + T.NewIds(c) && Last(longer).trucks == Last(trace).trucks
  {
    longer := GoOn(trace, Cash(c));
  }

  lemma Start() returns (trace: seq<State>)
    ensures IsRun(trace) && Last(trace).used == {} && Last(trace).trucks == map["truck" := "code"]
    ensures Last(trace).treasury == T.State(map[], map[], map[], {}, map[], map[])
    ensures forall kind :: BookOf(Last(trace), kind) == D.Book(kind, map[], D.Idle)
  {
    var books := D.Book(D.Billing, map[], D.Idle);
    var s := State(map[], map[], map["truck" := "code"], books, books.(kind := D.Payroll), map[],
                   T.State(map[], map[], map[], {}, map[], map[]), map[], {});
    trace := [s];
  }

  // ----- two creates, two promotions -----

  /** Two creates have counted no account. */
  lemma BothCounted() returns (trace: seq<State>)
    ensures IsRun(trace) && Last(trace).used == {} && Last(trace).treasury.accounts == map[]
    ensures Last(trace).treasury.pending == map["r" := T.Counted(true), "q" := T.Counted(true)]
  {
    trace := Start();
    trace := Pay(trace, T.DoCountAccounts("r"));
    trace := Pay(trace, T.DoCountAccounts("q"));
  }

  /** Two creates that both counted no account leave two defaults. */
  lemma OverlappingCreatesClash() returns (trace: seq<State>)
    ensures IsRun(trace) && !T.OneDefault(Last(trace).treasury.accounts)
  {
    trace := BothCounted();
    trace := Pay(trace, T.DoFinishCreate("r", "x", "", 0, 0));
    trace := Pay(trace, T.DoFinishCreate("q", "y", "", 0, 0));
    var accounts := Last(trace).treasury.accounts;
    assert AD.IsDefault(accounts, "x") && AD.IsDefault(accounts, "y");
  }

  /** A run with the one account `x`, without rows. */
  lemma OneAccount() returns (trace: seq<State>)
    ensures IsRun(trace) && Last(trace).used == {"x"} && Last(trace).trucks == map["truck" := "code"]
    ensures var t := Last(trace).treasury;
            && t.pending == map[] && t.ledger == map[] && t.handlers == map[] && t.ended == map[] && t.deleting == {}
            && t.accounts == map["x" := T.Account("", 0, true, true, 0)]
  {
    trace := Start();
    trace := Pay(trace, T.DoCountAccounts("r"));
    trace := Pay(trace, T.DoFinishCreate("r", "x", "", 0, 0));
  }

  /** A run with the accounts `x`, the default, and `y`. */
  lemma TwoAccounts() returns (trace: seq<State>)
    ensures IsRun(trace)
    ensures Last(trace).treasury.pending == map[] && Last(trace).treasury.accounts.Keys == {"x", "y"}
  {
    trace := OneAccount();
    trace := Pay(trace, T.DoCountAccounts("r"));
    trace := Pay(trace, T.DoFinishCreate("r", "y", "", 0, 0));
    assert Last(trace).treasury.pending == map[];
  }

  /** Both promotions have found their account. */
  lemma BothFound() returns (trace: seq<State>)
    ensures IsRun(trace) && Last(trace).treasury.accounts.Keys == {"x", "y"}
    ensures Last(trace).treasury.pending == map["r" := T.Found("x"), "q" := T.Found("y")]
  {
    trace := TwoAccounts();
    trace := Pay(trace, T.DoFindAccount("r", "x"));
    trace := Pay(trace, T.DoFindAccount("q", "y"));
  }

  /** One of them has demoted the other accounts. */
  lemma OneDemoted() returns (trace: seq<State>)
    ensures IsRun(trace) && Last(trace).treasury.accounts.Keys == {"x", "y"}
    ensures Last(trace).treasury.pending == map["r" := T.OthersDemoted("x"), "q" := T.Found("y")]
  {
    trace := BothFound();
    trace := Pay(trace, T.DoDemoteOthers("r"));
  }

  /** Both promotions have demoted the other accounts, and neither has updated its own. */
  lemma BothDemoted() returns (trace: seq<State>)
    ensures IsRun(trace) && Last(trace).treasury.accounts.Keys == {"x", "y"}
    ensures Last(trace).treasury.pending == map["r" := T.OthersDemoted("x"), "q" := T.OthersDemoted("y")]
  {
    trace := OneDemoted();
    trace := Pay(trace, T.DoDemoteOthers("q"));
  }

  /** Two promotions that both demoted before either updated leave two defaults. */
  lemma OverlappingPromotionsClash() returns (trace: seq<State>)
    ensures IsRun(trace) && !T.OneDefault(Last(trace).treasury.accounts)
  {
    trace := BothDemoted();
    trace := Pay(trace, T.DoPromote("r", None, None, None));
    trace := Pay(trace, T.DoPromote("q", None, None, None));
    var accounts := Last(trace).treasury.accounts;
    assert AD.IsDefault(accounts, "x") && AD.IsDefault(accounts, "y");
  }

  // ----- an insert inside the window of a delete -----

  /** A cost is created and its handler chooses the account `x`. */
  lemma CostChooses(trace: seq<State>) returns (longer: seq<State>)
    requires IsRun(trace) && Last(trace).used == {"x"} && Last(trace).trucks == map["truck" := "code"]
    requires Last(trace).treasury.ledger == map[]
    requires Last(trace).treasury.accounts == map["x" := T.Account("", 0, true, true, 0)]
    ensures IsRun(longer) && Extends(trace, longer)
    ensures var t, t' := Last(trace).treasury, Last(longer).treasury;
            && t'.accounts == t.accounts && t'.deleting == t.deleting && t'.ledger == map[]
            && "h" in t'.handlers && t'.handlers["h"].phase == T.Chosen("x")
  {
    var created := GoOn(trace, CreateCost("cost", Cost("truck", 0, Toll, 100, None), "h"));
    var checked := Pay(created, T.DoDedupe("h"));
    ExtendsOn(trace, created, checked);
    longer := Pay(checked, T.DoDefaultRead("h", Some("x")));
    ExtendsOn(trace, checked, longer);
  }

  /** The delete of `x` counts no rows. */
  lemma NoRowsCounted(trace: seq<State>) returns (longer: seq<State>)
    requires IsRun(trace) && Last(trace).treasury.ledger == map[] && "x" in Last(trace).treasury.accounts
    ensures IsRun(longer) && Last(longer).used == Last(trace).used && Last(longer).trucks == Last(trace).trucks
    ensures var t := Last(trace).treasury; Last(longer).treasury == t.(deleting := t.deleting + {"x"})
  {
    assert T.RowsOn(Last(trace).treasury, "x") == {};
    longer := Pay(trace, T.DoCountRows("x"));
  }

  /** The handler inserts its row on `x`, and the delete takes the row with it. */
  lemma InsertThenDelete(trace: seq<State>) returns (before: seq<State>, after: seq<State>)
    requires IsRun(trace) && Last(trace).treasury.deleting == {"x"} && Last(trace).treasury.ledger == map[]
    requires var t := Last(trace).treasury;
             "x" in t.accounts && "h" in t.handlers && t.handlers["h"].phase == T.Chosen("x")
    ensures IsRun(before) && IsRun(after) && Extends(trace, before) && RowLost(Last(before), Last(after))
  {
    before := Pay(trace, T.DoInsert("h"));
    assert "h" in T.RowsOn(Last(before).treasury, "x");
    after := GoOn(before, Cash(T.DoDeleteAccount("x")));
  }

  /** The delete of `x`, due in `s`, leads to `s'` and takes the automatic row `h` along. */
  ghost predicate RowLost(s: State, s': State) {
    && "h" in s.treasury.ledger && s.treasury.ledger["h"].source.Some? && "x" in s.treasury.deleting
    && Enabled(s, Cash(T.DoDeleteAccount("x"))) && s' == Apply(s, Cash(T.DoDeleteAccount("x")))
    && "h" !in s'.treasury.ledger
  }

  /** The window of a delete is real: a handler that chose the account before its rows
      were counted inserts after the count, and its row goes with the account. */
  lemma InsertInsideWindowIsLost() returns (before: seq<State>, after: seq<State>)
    ensures IsRun(before) && IsRun(after) && RowLost(Last(before), Last(after))
  {
    before := OneAccount();
    before := CostChooses(before);
    before := NoRowsCounted(before);
    before, after := InsertThenDelete(before);
  }

  /** Nor need anything be under way when the rows are counted: here no handler is in
      flight at the count, and the cost whose row is lost is created after it. */
  lemma ArrivalInsideWindowIsLost() returns (counted: seq<State>, before: seq<State>, after: seq<State>)
    ensures IsRun(counted) && Last(counted).treasury.handlers == map[] && "x" in Last(counted).treasury.deleting
    ensures Extends(counted, before)
    ensures IsRun(before) && IsRun(after) && RowLost(Last(before), Last(after))
  {
    counted := OneAccount();
    counted := NoRowsCounted(counted);
    var chosen := CostChooses(counted);
    before, after := InsertThenDelete(chosen);
    ExtendsOn(counted, chosen, before);
  }
}
