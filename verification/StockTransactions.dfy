/**
 Concurrent stock transactions on the Product database: each reserve or release locks its
 rows one by one in id order, works on its own copies, and makes them visible when it commits.
 */
module StockTransactions {
  import opened StockRules

  type TxId = nat

  /** A running transaction: its lines in id order, the next one to touch, and the rows it has
      locked with the values it will write. */
  datatype Txn = Txn(kind: Kind, items: seq<Item>, next: nat, working: map<int, int>)

  datatype Committed = Moved(kind: Kind, items: seq<Item>) | Set(product: int, amount: int)

  datatype Sys = Sys(rows: map<int, int>, txns: map<TxId, Txn>, log: seq<Committed>)

  datatype Action =
    | Begin(t: TxId, kind: Kind, items: seq<Item>)
    | Touch(t: TxId)       // lock the next row, check it and change the copy, or raise and roll back
    | Commit(t: TxId)
    | Rollback(t: TxId)    // crash, lost connection or statement timeout at any point
    | Update(product: int, amount: int) // update_product writing a stock quantity

  /** Another transaction holds the row. */
  predicate HeldByOther(s: Sys, t: TxId, product: int) {
    exists u :: u in s.txns && u != t && product in s.txns[u].working
  }

  predicate Enabled(s: Sys, a: Action) {
    match a
    case Begin(t, _, items) => t !in s.txns && forall i :: 0 <= i < |items| ==> items[i].quantity > 0
    case Touch(t) =>
      && t in s.txns && s.txns[t].next < |s.txns[t].items|
      && !HeldByOther(s, t, s.txns[t].items[s.txns[t].next].product)
    case Commit(t) => t in s.txns && s.txns[t].next >= |s.txns[t].items|
    case Rollback(t) => t in s.txns
    case Update(p, amount) =>
      p in s.rows && amount >= 0 && forall u :: u in s.txns ==> p !in s.txns[u].working
  }

  /** The row as the transaction sees it once it has the lock. */
  function Seen(s: Sys, x: Txn, product: int): int
    requires product in s.rows
  {
    if product in x.working then x.working[product] else s.rows[product]
  }

  function Apply(s: Sys, a: Action): Sys
    requires Enabled(s, a)
  {
    match a
    case Begin(t, kind, items) => s.(txns := s.txns[t := Txn(kind, SortById(items), 0, map[])])
    case Touch(t) =>
      var x := s.txns[t];
      var item := x.items[x.next];
      if item.product !in s.rows then
        if x.kind == Reserving then s.(txns := s.txns - {t})
        else s.(txns := s.txns[t := x.(next := x.next + 1)])
      else if x.kind == Reserving && Seen(s, x, item.product) < item.quantity then s.(txns := s.txns - {t})
      else
        var changed := Seen(s, x, item.product) + Signed(x.kind, item.quantity);
        s.(txns := s.txns[t := x.(next := x.next + 1, working := x.working[item.product := changed])])
    case Commit(t) =>
      var x := s.txns[t];
      Sys(s.rows + x.working, s.txns - {t}, s.log + [Moved(x.kind, x.items)])
    case Rollback(t) => s.(txns := s.txns - {t})
    case Update(p, amount) => s.(rows := s.rows[p := amount], log := s.log + [Set(p, amount)])
  }

  ghost predicate Feasible(s: Sys, acts: seq<Action>)
    decreases |acts|
  {
    acts == [] || (Enabled(s, acts[0]) && Feasible(Apply(s, acts[0]), acts[1..]))
  }

  ghost function Exec(s: Sys, acts: seq<Action>): Sys
    requires Feasible(s, acts)
    decreases |acts|
  {
    if acts == [] then s else Exec(Apply(s, acts[0]), acts[1..])
  }

  /** The committed work alone, one after the other, nothing interleaved. */
  function Replay(rows: map<int, int>, log: seq<Committed>): Change {
    if log == [] then Changed(rows)
    else
      var before := Replay(rows, log[..|log| - 1]);
      if before.Refused? then before
      else match log[|log| - 1]
        case Moved(kind, items) => ApplyItems(kind, before.rows, items)
        case Set(p, amount) => Changed(before.rows[p := amount])
  }

  /** The copies are what the lines so far make of the committed rows. */
  ghost predicate TxnOk(rows: map<int, int>, x: Txn) {
    && Sorted(x.items) && Positive(x.items) && x.next <= |x.items|
    && x.working.Keys == Products(x.items[..x.next]) * rows.Keys
    && (forall p :: p in x.working ==> x.working[p] == rows[p] + Signed(x.kind, Total(x.items[..x.next], p)))
    && (x.kind == Reserving ==> Products(x.items[..x.next]) <= rows.Keys)
    && (x.kind == Reserving ==> forall p :: p in x.working ==> x.working[p] >= 0)
  }

  ghost predicate Exclusive(s: Sys) {
    forall t, u, p :: t in s.txns && u in s.txns && p in s.txns[t].working && p in s.txns[u].working ==> t == u
  }

  ghost predicate Inv(s: Sys) {
    Exclusive(s) && forall t :: t in s.txns ==> TxnOk(s.rows, s.txns[t])
  }

  /** Changing rows a transaction has not locked does not disturb it. */
  lemma TxnFrame(rows: map<int, int>, rows': map<int, int>, x: Txn)
    requires TxnOk(rows, x) && rows'.Keys == rows.Keys
    requires forall p :: p in x.working ==> rows'[p] == rows[p]
    ensures TxnOk(rows', x)
  {
  }

  /** One more line: the totals and the products asked for grow by that line. */
  lemma OneMoreLine(items: seq<Item>, n: nat)
    requires n < |items|
    ensures Products(items[..n + 1]) == Products(items[..n]) + {items[n].product}
    ensures forall p :: Total(items[..n + 1], p)
                        == Total(items[..n], p) + if items[n].product == p then items[n].quantity else 0
  {
    assert items[..n + 1][..n] == items[..n];
  }

  /** The keys, then the values, of the rows a transaction has worked on. */
  lemma TouchKeys(s: Sys, t: TxId)
    requires Inv(s) && Enabled(s, Touch(t)) && t in Apply(s, Touch(t)).txns
    ensures var x, x' := s.txns[t], Apply(s, Touch(t)).txns[t];
            && x'.items == x.items && x'.next == x.next + 1 && x'.kind == x.kind
            && x'.working.Keys == Products(x.items[..x'.next]) * s.rows.Keys
            && (x.kind == Reserving ==> Products(x.items[..x'.next]) <= s.rows.Keys)
  {
    var x, x' := s.txns[t], Apply(s, Touch(t)).txns[t];
    assert TxnOk(s.rows, x);
    OneMoreLine(x.items, x.next);
    if x.items[x.next].product in s.rows {
      assert x'.working.Keys == x.working.Keys + {x.items[x.next].product};
    } else {
      assert x'.working == x.working;
    }
  }

  lemma TouchOk(s: Sys, t: TxId)
    requires Inv(s) && Enabled(s, Touch(t)) && t in Apply(s, Touch(t)).txns
    ensures TxnOk(s.rows, Apply(s, Touch(t)).txns[t])
  {
    var x, x' := s.txns[t], Apply(s, Touch(t)).txns[t];
    var p := x.items[x.next].product;
    assert TxnOk(s.rows, x);
    TouchKeys(s, t);
    OneMoreLine(x.items, x.next);
    ProductsMeaning(x.items[..x.next], p);
    assert p in s.rows && p !in x.working ==> Total(x.items[..x.next], p) == 0;
  }

  lemma CommitOk(s: Sys, t: TxId)
    requires Inv(s) && Enabled(s, Commit(t))
    ensures ApplyItems(s.txns[t].kind, s.rows, s.txns[t].items) == Changed(s.rows + s.txns[t].working)
    ensures (s.rows + s.txns[t].working).Keys == s.rows.Keys
  {
    var x := s.txns[t];
    assert TxnOk(s.rows, x);
    assert x.items[..x.next] == x.items;
    ItemsMeaning(x.kind, s.rows, x.items);
    if x.kind == Reserving {
      forall i | 0 <= i < |x.items|
        ensures x.items[i].product in s.rows && Total(x.items, x.items[i].product) <= s.rows[x.items[i].product]
      {
        ProductsMeaning(x.items, x.items[i].product);
        assert x.items[i].product in x.working.Keys;
      }
    }
    var after, expected := ApplyItems(x.kind, s.rows, x.items).rows, s.rows + x.working;
    assert expected.Keys == s.rows.Keys == after.Keys;
    forall p | p in s.rows ensures after[p] == expected[p] {
      ProductsMeaning(x.items, p);
    }
    assert after == expected;
  }

  lemma ExclusiveKept(s: Sys, a: Action)
    requires Inv(s) && Enabled(s, a)
    ensures Exclusive(Apply(s, a))
  {
    var s' := Apply(s, a);
    forall t, u, p | t in s'.txns && u in s'.txns && p in s'.txns[t].working && p in s'.txns[u].working
      ensures t == u
    {
      assert (t in s.txns && p in s.txns[t].working) || (a.Touch? && a.t == t);
      assert (u in s.txns && p in s.txns[u].working) || (a.Touch? && a.t == u);
    }
  }

  lemma StepInv(s: Sys, a: Action)
    requires Inv(s) && Enabled(s, a)
    ensures Inv(Apply(s, a)) && Apply(s, a).rows.Keys == s.rows.Keys
  {
    var s' := Apply(s, a);
    ExclusiveKept(s, a);
    if a.Commit? {
      CommitOk(s, a.t);
    }
    forall u | u in s'.txns ensures TxnOk(s'.rows, s'.txns[u]) {
      if u in s.txns && s'.txns[u] == s.txns[u] {
        TxnFrame(s.rows, s'.rows, s.txns[u]);
      } else if a.Begin? {
        SortKeeps(a.items);
        SortMembers(a.items);
      } else {
        TouchOk(s, a.t);
      }
    }
  }

  lemma StepReplays(rows0: map<int, int>, s: Sys, a: Action)
    requires Inv(s) && Enabled(s, a) && Replay(rows0, s.log) == Changed(s.rows)
    ensures Replay(rows0, Apply(s, a).log) == Changed(Apply(s, a).rows)
  {
    var s' := Apply(s, a);
    if a.Commit? {
      CommitOk(s, a.t);
    }
    if a.Commit? || a.Update? {
      assert s'.log[..|s'.log| - 1] == s.log;
    }
  }

  /** Serialisability: after any interleaving of any number of transactions, whatever aborts or
      rolls back, the committed stock is what the committed requests make of the initial stock
      when they run alone, one after the other, in the order of their commits. */
  lemma {:induction false} Serialisable(rows0: map<int, int>, s: Sys, acts: seq<Action>)
    requires Inv(s) && Replay(rows0, s.log) == Changed(s.rows) && Feasible(s, acts)
    ensures Replay(rows0, Exec(s, acts).log) == Changed(Exec(s, acts).rows)
    ensures Inv(Exec(s, acts)) && Exec(s, acts).rows.Keys == s.rows.Keys
    decreases |acts|
  {
    if acts != [] {
      StepInv(s, acts[0]);
      StepReplays(rows0, s, acts[0]);
      Serialisable(rows0, Apply(s, acts[0]), acts[1..]);
    }
  }

  /** Stock is never negative, in any run that starts without negative stock. */
  lemma {:induction false} NeverNegative(s: Sys, acts: seq<Action>)
    requires Inv(s) && NotNegative(s.rows) && Feasible(s, acts)
    ensures NotNegative(Exec(s, acts).rows)
    decreases |acts|
  {
    if acts != [] {
      StepInv(s, acts[0]);
      if acts[0].Commit? {
        CommitOk(s, acts[0].t);
        assert TxnOk(s.rows, s.txns[acts[0].t]);
        StaysNotNegative(s.txns[acts[0].t].kind, s.rows, s.txns[acts[0].t].items);
      }
      NeverNegative(Apply(s, acts[0]), acts[1..]);
    }
  }

  // ---- the log is what was asked for ----

  datatype Asked = Asked(kind: Kind, items: seq<Item>)

  /** What the run itself says was committed: for each commit what its transaction was begun with,
      in the order of the commits, and the stock edits between them. */
  function CommittedBy(begun: map<TxId, Asked>, acts: seq<Action>): seq<Committed>
    decreases |acts|
  {
    if acts == [] then []
    else
      match acts[0]
      case Begin(t, kind, items) => CommittedBy(begun[t := Asked(kind, items)], acts[1..])
      case Commit(t) =>
        (if t in begun then [Moved(begun[t].kind, begun[t].items)] else []) + CommittedBy(begun, acts[1..])
      case Update(p, amount) => [Set(p, amount)] + CommittedBy(begun, acts[1..])
      case _ => CommittedBy(begun, acts[1..])
  }

  /** Every running transaction does what it was begun for. */
  ghost predicate AsBegun(s: Sys, begun: map<TxId, Asked>) {
    forall t :: t in s.txns ==>
      t in begun && s.txns[t].kind == begun[t].kind && s.txns[t].items == SortById(begun[t].items)
      && Positive(begun[t].items)
  }

  function BegunAfter(begun: map<TxId, Asked>, a: Action): map<TxId, Asked> {
    if a.Begin? then begun[a.t := Asked(a.kind, a.items)] else begun
  }

  lemma StepAsBegun(s: Sys, a: Action, begun: map<TxId, Asked>)
    requires Enabled(s, a) && AsBegun(s, begun)
    ensures AsBegun(Apply(s, a), BegunAfter(begun, a))
  {
  }

  /** The same requests, their lines in the order of the transactions or as they came. */
  ghost predicate SameRequests(log: seq<Committed>, asked: seq<Committed>) {
    && |log| == |asked|
    && forall i :: 0 <= i < |log| ==>
         match asked[i]
         case Moved(kind, items) => log[i] == Moved(kind, SortById(items)) && Positive(items)
         case Set(p, amount) => log[i] == Set(p, amount)
  }

  function LoggedBy(begun: map<TxId, Asked>, a: Action): seq<Committed> {
    if a.Commit? && a.t in begun then [Moved(begun[a.t].kind, begun[a.t].items)]
    else if a.Update? then [Set(a.product, a.amount)] else []
  }

  lemma StepLogsAsked(s: Sys, a: Action, begun: map<TxId, Asked>, asked: seq<Committed>)
    requires Enabled(s, a) && AsBegun(s, begun) && SameRequests(s.log, asked)
    ensures SameRequests(Apply(s, a).log, asked + LoggedBy(begun, a))
  {
    if !a.Commit? && !a.Update? {
      assert asked + [] == asked;
    }
  }

  lemma {:induction false} LogIsAsked(s: Sys, acts: seq<Action>, begun: map<TxId, Asked>, asked: seq<Committed>)
    requires Feasible(s, acts) && AsBegun(s, begun) && SameRequests(s.log, asked)
    ensures SameRequests(Exec(s, acts).log, asked + CommittedBy(begun, acts))
    decreases |acts|
  {
    if acts == [] {
      assert asked + [] == asked;
    } else {
      var a := acts[0];
      var more := LoggedBy(begun, a);
      StepAsBegun(s, a, begun);
      StepLogsAsked(s, a, begun, asked);
      LogIsAsked(Apply(s, a), acts[1..], BegunAfter(begun, a), asked + more);
      assert asked + more + CommittedBy(BegunAfter(begun, a), acts[1..]) == asked + CommittedBy(begun, acts);
    }
  }

  /** Replaying the requests as they came gives what replaying them with sorted lines gives. */
  lemma {:induction false} ReplayAsAsked(rows: map<int, int>, log: seq<Committed>, asked: seq<Committed>)
    requires SameRequests(log, asked)
    ensures Replay(rows, log).Changed? == Replay(rows, asked).Changed?
    ensures Replay(rows, log).Changed? ==> Replay(rows, log) == Replay(rows, asked)
    decreases |log|
  {
    if log != [] {
      var n := |log| - 1;
      assert SameRequests(log[..n], asked[..n]);
      ReplayAsAsked(rows, log[..n], asked[..n]);
      if Replay(rows, log[..n]).Changed? && asked[n].Moved? {
        var items := asked[n].items;
        SortKeeps(items);
        SortMembers(items);
        OrderIrrelevant(asked[n].kind, Replay(rows, log[..n]).rows, SortById(items), items);
      }
    }
  }

  /** Serialisability in terms of the requests alone: whatever was interleaved, the stock is what
      the requests whose transactions committed, exactly as they were begun, make of the initial
      stock one after the other in the order of their commits. */
  lemma StockIsWhatWasAsked(rows0: map<int, int>, acts: seq<Action>)
    requires Feasible(Sys(rows0, map[], []), acts)
    ensures Replay(rows0, CommittedBy(map[], acts)) == Changed(Exec(Sys(rows0, map[], []), acts).rows)
  {
    var s0 := Sys(rows0, map[], []);
    Serialisable(rows0, s0, acts);
    LogIsAsked(s0, acts, map[], []);
    assert [] + CommittedBy(map[], acts) == CommittedBy(map[], acts);
    ReplayAsAsked(rows0, Exec(s0, acts).log, CommittedBy(map[], acts));
  }

  // ---- which transactions go through ----

  /** A line aborts its transaction if and only if the lines up to it, applied to the committed
      rows of that moment, are refused. */
  lemma TouchRefuses(s: Sys, t: TxId)
    requires Inv(s) && Enabled(s, Touch(t))
    ensures t !in Apply(s, Touch(t)).txns <==>
            ApplyItems(s.txns[t].kind, s.rows, s.txns[t].items[..s.txns[t].next + 1]).Refused?
  {
    var x := s.txns[t];
    var p, before := x.items[x.next].product, x.items[..x.next];
    assert TxnOk(s.rows, x);
    WorkingIsApplied(s.rows, x);
    assert x.items[..x.next + 1][..x.next] == before;
    var rows := ApplyItems(x.kind, s.rows, before).rows;
    assert p in s.rows ==> rows[p] == Seen(s, x, p) by {
      ProductsMeaning(before, p);
    }
  }

  /** What a transaction has done so far is what its lines so far make of the committed rows. */
  lemma WorkingIsApplied(rows: map<int, int>, x: Txn)
    requires TxnOk(rows, x)
    ensures ApplyItems(x.kind, rows, x.items[..x.next]).Changed?
    ensures MovedBy(x.kind, rows, x.items[..x.next], ApplyItems(x.kind, rows, x.items[..x.next]).rows)
  {
    var before := x.items[..x.next];
    ItemsMeaning(x.kind, rows, before);
    if x.kind == Reserving {
      forall i | 0 <= i < |before|
        ensures before[i].product in rows && Total(before, before[i].product) <= rows[before[i].product]
      {
        ProductsMeaning(before, before[i].product);
        assert before[i].product in x.working.Keys;
      }
    }
  }

  /** A transaction that is rolled back, or whose line is refused, is gone and leaves no trace. */
  lemma AbortsLeaveNoTrace(s: Sys, a: Action)
    requires Enabled(s, a) && (a.Rollback? || (a.Touch? && a.t !in Apply(s, a).txns))
    ensures Apply(s, a).rows == s.rows && Apply(s, a).log == s.log
    ensures a.t !in Apply(s, a).txns
    ensures forall u :: u != a.t && u in s.txns ==> u in Apply(s, a).txns && Apply(s, a).txns[u] == s.txns[u]
  {
  }

  /** How a transaction's part in a run ends. */
  datatype End = Running | Done | Aborted | RolledBack

  ghost function EndOf(s: Sys, acts: seq<Action>, t: TxId): End
    requires Feasible(s, acts) && t in s.txns
    decreases |acts|
  {
    if acts == [] then Running
    else if acts[0] == Commit(t) then Done
    else if acts[0] == Rollback(t) then RolledBack
    else if t !in Apply(s, acts[0]).txns then Aborted
    else EndOf(Apply(s, acts[0]), acts[1..], t)
  }

  /** As long as the transaction runs, the committed rows it asks for stay as they are. */
  ghost predicate RowsStill(s: Sys, acts: seq<Action>, t: TxId, rows: map<int, int>)
    requires Feasible(s, acts)
    decreases |acts|
  {
    t in s.txns ==>
      && s.rows.Keys == rows.Keys
      && (forall p :: p in rows && p in Products(s.txns[t].items) ==> s.rows[p] == rows[p])
      && (acts != [] ==> RowsStill(Apply(s, acts[0]), acts[1..], t, rows))
  }

  /** Only the rows that the lines name matter. */
  lemma {:induction false} OnlyNamedRows(kind: Kind, rows: map<int, int>, rows': map<int, int>, items: seq<Item>)
    requires rows.Keys == rows'.Keys && forall p :: p in rows && p in Products(items) ==> rows[p] == rows'[p]
    ensures ApplyItems(kind, rows, items).Refused? == ApplyItems(kind, rows', items).Refused?
    ensures ApplyItems(kind, rows, items).Changed? ==>
              && ApplyItems(kind, rows, items).rows.Keys == ApplyItems(kind, rows', items).rows.Keys == rows.Keys
              && forall p :: p in rows && p in Products(items) ==>
                   ApplyItems(kind, rows, items).rows[p] == ApplyItems(kind, rows', items).rows[p]
    decreases |items|
  {
    if items != [] {
      var shorter, p := items[..|items| - 1], items[|items| - 1].product;
      OnlyNamedRows(kind, rows, rows', shorter);
      if ApplyItems(kind, rows, shorter).Changed? && p !in Products(shorter) {
        UntouchedRow(kind, rows, shorter, p);
        UntouchedRow(kind, rows', shorter, p);
      }
    }
  }

  lemma {:induction false} UntouchedRow(kind: Kind, rows: map<int, int>, items: seq<Item>, p: int)
    requires p !in Products(items) && ApplyItems(kind, rows, items).Changed?
    ensures p in ApplyItems(kind, rows, items).rows <==> p in rows
    ensures p in rows ==> ApplyItems(kind, rows, items).rows[p] == rows[p]
    decreases |items|
  {
    if items != [] {
      UntouchedRow(kind, rows, items[..|items| - 1], p);
    }
  }

  /** A run may leave a transaction unfinished or roll it back.  Otherwise, if the rows it asks for
      stay as they are while it runs, it commits if and only if its lines as a whole can be
      applied to them. */
  lemma {:induction false} EndsByTheRows(s: Sys, acts: seq<Action>, t: TxId, rows: map<int, int>)
    requires Inv(s) && Feasible(s, acts) && t in s.txns && RowsStill(s, acts, t, rows)
    ensures EndOf(s, acts, t) == Done ==> ApplyItems(s.txns[t].kind, rows, s.txns[t].items).Changed?
    ensures EndOf(s, acts, t) == Aborted ==> ApplyItems(s.txns[t].kind, rows, s.txns[t].items).Refused?
    decreases |acts|
  {
    if acts != [] {
      if t in Apply(s, acts[0]).txns {
        StillItself(s, acts[0], t);
        StepInv(s, acts[0]);
        EndsByTheRows(Apply(s, acts[0]), acts[1..], t, rows);
      } else {
        LastStep(s, acts[0], t);
        OnlyNamedRows(s.txns[t].kind, s.rows, rows, s.txns[t].items);
      }
    }
  }

  lemma StillItself(s: Sys, a: Action, t: TxId)
    requires Enabled(s, a) && t in s.txns && t in Apply(s, a).txns
    ensures Apply(s, a).txns[t].kind == s.txns[t].kind && Apply(s, a).txns[t].items == s.txns[t].items
    ensures a != Commit(t) && a != Rollback(t)
  {
  }

  /** The step with which a transaction goes away. */
  lemma LastStep(s: Sys, a: Action, t: TxId)
    requires Inv(s) && Enabled(s, a) && t in s.txns && t !in Apply(s, a).txns
    ensures a == Commit(t) || a == Rollback(t) || a == Touch(t)
    ensures a == Commit(t) ==> ApplyItems(s.txns[t].kind, s.rows, s.txns[t].items).Changed?
    ensures a == Touch(t) ==> ApplyItems(s.txns[t].kind, s.rows, s.txns[t].items).Refused?
  {
    if a == Commit(t) {
      CommitOk(s, t);
    } else if a == Touch(t) {
      TouchRefuses(s, t);
      RefusalStands(s.txns[t].kind, s.rows, s.txns[t].items, s.txns[t].next + 1);
    }
  }

  /** The same for a request from its begin on, its lines as they came. */
  lemma CommitsExactlyWhenAllowed(s: Sys, t: TxId, kind: Kind, items: seq<Item>, acts: seq<Action>)
    requires Inv(s) && Enabled(s, Begin(t, kind, items)) && Feasible(Apply(s, Begin(t, kind, items)), acts)
    requires RowsStill(Apply(s, Begin(t, kind, items)), acts, t, s.rows)
    requires EndOf(Apply(s, Begin(t, kind, items)), acts, t) in {Done, Aborted}
    ensures EndOf(Apply(s, Begin(t, kind, items)), acts, t) == Done <==> ApplyItems(kind, s.rows, items).Changed?
  {
    var s' := Apply(s, Begin(t, kind, items));
    StepInv(s, Begin(t, kind, items));
    EndsByTheRows(s', acts, t, s.rows);
    SortKeeps(items);
    SortMembers(items);
    OrderIrrelevant(kind, s.rows, SortById(items), items);
  }

  ghost predicate Waiting(s: Sys, t: TxId) {
    t in s.txns && s.txns[t].next < |s.txns[t].items| && !Enabled(s, Touch(t))
  }

  function Wanted(s: Sys, t: TxId): int
    requires t in s.txns && s.txns[t].next < |s.txns[t].items|
  {
    s.txns[t].items[s.txns[t].next].product
  }

  /** Whoever holds the row somebody waits for, and waits as well, waits for a later row. */
  lemma HolderWantsLater(s: Sys, t: TxId, u: TxId)
    requires Inv(s) && Waiting(s, t) && Waiting(s, u) && u != t && Wanted(s, t) in s.txns[u].working
    ensures Wanted(s, t) < Wanted(s, u)
  {
    var x := s.txns[u];
    assert TxnOk(s.rows, x);
    ProductsMeaning(x.items[..x.next], Wanted(s, t));
    var j :| 0 <= j < x.next && x.items[..x.next][j].product == Wanted(s, t);
    assert x.items[j].product <= x.items[x.next].product;
    var p := Wanted(s, t);
    assert !HeldByOther(s, u, p);
  }

  lemma {:induction false} LatestWaiter(s: Sys, ts: set<TxId>) returns (t: TxId)
    requires ts != {} && forall u :: u in ts ==> Waiting(s, u)
    ensures t in ts && forall u :: u in ts ==> Waiting(s, t) && Waiting(s, u) && Wanted(s, u) <= Wanted(s, t)
    decreases ts
  {
    t :| t in ts;
    if ts != {t} {
      var u := LatestWaiter(s, ts - {t});
      if Wanted(s, t) < Wanted(s, u) {
        t := u;
      }
    }
  }

  /** Deadlock freedom: as long as some transaction is unfinished, some transaction can take
      its next step. */
  lemma SomeoneCanStep(s: Sys) returns (t: TxId)
    requires Inv(s) && s.txns != map[]
    ensures t in s.txns && (Enabled(s, Touch(t)) || Enabled(s, Commit(t)))
  {
    if u :| u in s.txns && !Waiting(s, u) {
      t := u;
    } else {
      assert s.txns.Keys != {};
      t := LatestWaiter(s, s.txns.Keys);
      var u :| u in s.txns && u != t && Wanted(s, t) in s.txns[u].working;
      HolderWantsLater(s, t, u);
      assert false;
    }
  }

  /** The steps the running transactions still have before them. */
  function Pending(s: Sys): set<(TxId, nat)> {
    set t, i | t in s.txns && s.txns[t].next <= i <= |s.txns[t].items| :: (t, i)
  }

  /** Every step of a running transaction uses up a pending one. */
  lemma StepsAreUsedUp(s: Sys, a: Action)
    requires Inv(s) && Enabled(s, a) && (a.Touch? || a.Commit?)
    ensures Pending(Apply(s, a)) < Pending(s)
  {
    assert TxnOk(s.rows, s.txns[a.t]);
    var mine := (a.t, s.txns[a.t].next);
    assert mine in Pending(s) && mine !in Pending(Apply(s, a));
  }

  lemma NextStep(s: Sys) returns (a: Action)
    requires Inv(s) && s.txns != map[]
    ensures Enabled(s, a) && (a.Touch? || a.Commit?)
    ensures Inv(Apply(s, a)) && Pending(Apply(s, a)) < Pending(s)
  {
    var t := SomeoneCanStep(s);
    a := if Enabled(s, Touch(t)) then Touch(t) else Commit(t);
    StepInv(s, a);
    StepsAreUsedUp(s, a);
  }

  /** So from any point of any run all transactions can finish, without anybody giving up. */
  lemma {:induction false} AllCanFinish(s: Sys) returns (acts: seq<Action>)
    requires Inv(s)
    ensures Feasible(s, acts) && Exec(s, acts).txns == map[]
    ensures forall i :: 0 <= i < |acts| ==> acts[i].Touch? || acts[i].Commit?
    decreases Pending(s)
  {
    acts := [];
    if s.txns != map[] {
      var a := NextStep(s);
      var rest := AllCanFinish(Apply(s, a));
      acts := [a] + rest;
      assert acts[1..] == rest;
    }
  }

  /** Begin as it would be without the sort. */
  function BeginAsGiven(s: Sys, t: TxId, kind: Kind, items: seq<Item>): Sys {
    s.(txns := s.txns[t := Txn(kind, items, 0, map[])])
  }

  /** The sorting matters: without it two reserves that name the same two products in opposite
      order, each having locked its first row, wait for each other for good. */
  lemma UnsortedWouldDeadlock() returns (s0: Sys, s1: Sys, s2: Sys)
    ensures s0 == Sys(map[1 := 5, 2 := 5], map[], [])
    ensures s1 == BeginAsGiven(BeginAsGiven(s0, 1, Reserving, [Item(1, 1), Item(2, 1)]),
                               2, Reserving, [Item(2, 1), Item(1, 1)])
    ensures Feasible(s1, [Touch(1), Touch(2)]) && s2 == Exec(s1, [Touch(1), Touch(2)])
    ensures s2.txns.Keys == {1, 2} && forall t :: t in s2.txns ==> !Enabled(s2, Touch(t)) && !Enabled(s2, Commit(t))
  {
    s0 := Sys(map[1 := 5, 2 := 5], map[], []);
    s1 := BeginAsGiven(BeginAsGiven(s0, 1, Reserving, [Item(1, 1), Item(2, 1)]),
                       2, Reserving, [Item(2, 1), Item(1, 1)]);
    var middle := Apply(s1, Touch(1));
    assert middle.txns[1] == Txn(Reserving, [Item(1, 1), Item(2, 1)], 1, map[1 := 4]);
    s2 := Apply(middle, Touch(2));
    assert s2.txns[2] == Txn(Reserving, [Item(2, 1), Item(1, 1)], 1, map[2 := 4]);
    assert [Touch(1), Touch(2)][1..] == [Touch(2)] && [Touch(2)][1..] == [];
    assert Feasible(s2, []) && Feasible(middle, [Touch(2)]) && Exec(middle, [Touch(2)]) == s2;
    BothWait(s2);
  }

  lemma BothWait(s: Sys)
    requires s.txns.Keys == {1, 2}
    requires s.txns[1] == Txn(Reserving, [Item(1, 1), Item(2, 1)], 1, map[1 := 4])
    requires s.txns[2] == Txn(Reserving, [Item(2, 1), Item(1, 1)], 1, map[2 := 4])
    ensures forall t :: t in s.txns ==> !Enabled(s, Touch(t)) && !Enabled(s, Commit(t))
  {
    assert HeldByOther(s, 1, 2) by { assert 2 in s.txns; }
    assert HeldByOther(s, 2, 1) by { assert 1 in s.txns; }
  }
}
