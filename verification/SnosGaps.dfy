/** A SNOS job whose creation failed is only logged. When a later one exists, the worker starts behind the
    gap from then on: the block never gets its job, and settlement stops in front of it. */
module SnosGaps {
  import opened Outcomes
  import opened SortedLists
  import JobProtocol
  import opened Pipeline
  import opened SettlementChain
  import opened SettlementRuns

  /** A running SNOS loop that has not passed block n yet. */
  predicate Reaches(x: Worker, n: nat) {
    x.SnosLoop? && x.next <= n < x.end
  }

  /** Block n has no SNOS job, a later block has one, and no loop is on its way to n. */
  predicate Stuck(s: State, n: nat) {
    Key(SnosRun, n) !in s.db
    && (exists key :: key in s.db && key.jobType == SnosRun && key.id > n)
    && forall w :: w in s.workers ==> !Reaches(s.workers[w], n)
  }

  // ---- A gap stays ----------------------------------------------------------------------------

  lemma FetchSkips(cfg: Range, s: State, w: nat, latest: Option<nat>, tip: nat, n: nat)
    requires Stuck(s, n) && FetchSnosStep(cfg, s, w, latest, tip).Some?
    ensures !Reaches(FetchSnosStep(cfg, s, w, latest, tip).value.workers[w], n)
  {
    var key :| key in s.db && key.jobType == SnosRun && key.id > n;
    assert latest.Some? && key.id <= latest.value;
  }

  /** Other steps keep every job, create no SNOS job for n, and put no loop in front of it. */
  lemma StepSkips(cfg: Range, s: State, l: Label, n: nat)
    requires Next(cfg, s, l).Some? && !l.FetchSnos?
    requires forall w :: w in s.workers ==> !Reaches(s.workers[w], n)
    ensures var t := Next(cfg, s, l).value;
            s.db.Keys <= t.db.Keys
            && (Key(SnosRun, n) in t.db ==> Key(SnosRun, n) in s.db)
            && forall w :: w in t.workers ==> !Reaches(t.workers[w], n)
  {
  }

  lemma StepStuck(cfg: Range, s: State, l: Label, n: nat)
    requires Stuck(s, n) && Next(cfg, s, l).Some?
    ensures Stuck(Next(cfg, s, l).value, n)
  {
    if l.FetchSnos? {
      FetchSkips(cfg, s, l.w, l.latest, l.tip, n);
    } else {
      StepSkips(cfg, s, l, n);
      var key :| key in s.db && key.jobType == SnosRun && key.id > n;
      assert key in Next(cfg, s, l).value.db.Keys;
    }
  }

  lemma {:induction false} RunStuck(cfg: Range, s: State, ls: seq<Label>, n: nat)
    requires Stuck(s, n) && Run(cfg, s, ls).Some?
    ensures Stuck(Run(cfg, s, ls).value, n)
  {
    if ls != [] {
      var m := |ls| - 1;
      RunStuck(cfg, s, ls[..m], n);
      StepStuck(cfg, Run(cfg, s, ls[..m]).value, ls[m], n);
    }
  }

  lemma {:induction false} RunKeepsFrom(cfg: Range, s: State, ls: seq<Label>)
    requires Inv(cfg, s) && Run(cfg, s, ls).Some?
    ensures Inv(cfg, Run(cfg, s, ls).value)
  {
    if ls != [] {
      var m := |ls| - 1;
      RunKeepsFrom(cfg, s, ls[..m]);
      StepKeeps(cfg, Run(cfg, s, ls[..m]).value, ls[m]);
    }
  }

  lemma NotSettled(cfg: Range, s: State, n: nat, id: nat)
    requires Inv(cfg, s) && Key(SnosRun, n) !in s.db
    ensures n !in Blocks(s.db, id)
  {
    if Key(StateTransition, id) in s.db && n in Blocks(s.db, id) {
      assert JobOk(s.db, Key(StateTransition, id));
      Ancestors(cfg, s.db, n);
    }
  }

  lemma EndsBeforeGap(cfg: Range, s: State, n: nat, id: nat)
    requires Inv(cfg, s) && Key(SnosRun, n) !in s.db && n >= FirstBlock(cfg) && Key(StateTransition, id) in s.db
    ensures End(s.db, id) <= n
  {
    assert Key(StateTransition, id).id in s.chain;
    var i :| 0 <= i < |s.chain| && s.chain[i] == id;
    if n < End(s.db, id) {
      var owner := Covering(cfg, s.db, s.chain, i, n);
      NotSettled(cfg, s, n, owner);
    }
  }

  /** Once block n is stuck, no continuation ever settles it or any block behind it. */
  lemma SettlementStops(cfg: Range, first: seq<Label>, rest: seq<Label>, n: nat, id: nat)
    requires Run(cfg, START, first).Some? && Stuck(Run(cfg, START, first).value, n) && n >= FirstBlock(cfg)
    requires Run(cfg, Run(cfg, START, first).value, rest).Some?
    requires Key(StateTransition, id) in Run(cfg, Run(cfg, START, first).value, rest).value.db
    ensures var t := Run(cfg, Run(cfg, START, first).value, rest).value;
            n !in Blocks(t.db, id) && End(t.db, id) <= n
  {
    RunKeeps(cfg, first);
    var s := Run(cfg, START, first).value;
    RunKeepsFrom(cfg, s, rest);
    RunStuck(cfg, s, rest, n);
    var t := Run(cfg, s, rest).value;
    NotSettled(cfg, t, n, id);
    EndsBeforeGap(cfg, t, n, id);
  }

  // ---- Any other gap can be filled ------------------------------------------------------------

  lemma OneTurn(cfg: Range, s: State, ls: seq<Label>, u: State, w: nat, next: nat, end: nat) returns (t: State)
    requires Run(cfg, s, ls) == Some(u) && next < end
    requires w in u.workers && u.workers[w] == SnosLoop(next, end)
    ensures Run(cfg, s, ls + [CreateSnos(w, true)]) == Some(t)
    ensures w in t.workers && t.workers[w] == SnosLoop(next + 1, end) && Key(SnosRun, next) in t.db
  {
    t := Next(cfg, u, CreateSnos(w, true)).value;
    RunSnoc(cfg, s, ls, CreateSnos(w, true));
  }

  /** A loop that is not stopped creates the jobs of its next k blocks. */
  lemma {:induction false} LoopCreates(cfg: Range, s: State, before: seq<Label>, r: State, w: nat, next: nat, end: nat,
                                     k: nat)
    returns (ls: seq<Label>, t: State)
    requires Run(cfg, s, before) == Some(r) && next + k <= end
    requires w in r.workers && r.workers[w] == SnosLoop(next, end)
    ensures Run(cfg, s, ls) == Some(t)
    ensures w in t.workers && t.workers[w] == SnosLoop(next + k, end)
    ensures k > 0 ==> Key(SnosRun, next + k - 1) in t.db
  {
    if k == 0 {
      ls, t := before, r;
    } else {
      var front, u := LoopCreates(cfg, s, before, r, w, next, end, k - 1);
      t := OneTurn(cfg, s, front, u, w, next + k - 1, end);
      ls := front + [CreateSnos(w, true)];
    }
  }

  lemma {:induction false} Above(ids: set<nat>) returns (b: nat)
    ensures forall id :: id in ids ==> id < b
    decreases |ids|
  {
    b := 0;
    if ids != {} {
      var id :| id in ids;
      var rest := ids - {id};
      var c := Above(rest);
      assert forall x :: x in ids ==> x == id || x in rest;
      b := if c <= id then id + 1 else c;
    }
  }

  lemma {:induction false} LatestOf(db: Database, keys: set<Key>, jobType: JobType) returns (latest: Option<nat>)
    requires keys <= db.Keys
    ensures latest.Some? ==> Key(jobType, latest.value) in keys
    ensures forall key :: key in keys && key.jobType == jobType ==> latest.Some? && key.id <= latest.value
    decreases |keys|
  {
    if keys == {} {
      latest := None;
    } else {
      var key :| key in keys;
      latest := LatestOf(db, keys - {key}, jobType);
      if key.jobType == jobType && (latest.None? || key.id > latest.value) {
        latest := Some(key.id);
        assert Key(jobType, key.id) == key;
      }
    }
  }

  /** A worker that starts now, with the tip at n, covers n when no later job exists. */
  lemma FreshLoop(cfg: Range, s: State, n: nat) returns (l: Label, w: nat)
    requires InRange(cfg, n)
    requires forall key :: key in s.db && key.jobType == SnosRun ==> key.id <= n
    ensures Next(cfg, s, l).Some? && w in Next(cfg, s, l).value.workers
    ensures Reaches(Next(cfg, s, l).value.workers[w], n)
  {
    w := Above(s.workers.Keys);
    assert w !in s.workers by {
      assert w in s.workers.Keys ==> w < w;
    }
    var latest := LatestOf(s.db, s.db.Keys, SnosRun);
    l := FetchSnos(w, latest, n);
  }

  lemma LoopFills(cfg: Range, s: State, before: seq<Label>, r: State, w: nat, n: nat) returns (ls: seq<Label>, t: State)
    requires Run(cfg, s, before) == Some(r) && w in r.workers && Reaches(r.workers[w], n)
    ensures Run(cfg, s, ls) == Some(t) && Key(SnosRun, n) in t.db
  {
    var x := r.workers[w];
    var k := n - x.next + 1;
    ls, t := LoopCreates(cfg, s, before, r, w, x.next, x.end, k);
  }

  /** A missing SNOS job that is not stuck can still be created. */
  lemma CanFill(cfg: Range, s: State, n: nat) returns (ls: seq<Label>, t: State)
    requires InRange(cfg, n) && Key(SnosRun, n) !in s.db && !Stuck(s, n)
    ensures Run(cfg, s, ls) == Some(t) && Key(SnosRun, n) in t.db
  {
    if w :| w in s.workers && Reaches(s.workers[w], n) {
      ls, t := LoopFills(cfg, s, [], s, w, n);
    } else {
      NoLater(s, n);
      var l, w := FreshLoop(cfg, s, n);
      RunSnoc(cfg, s, [], l);
      ls, t := LoopFills(cfg, s, [] + [l], Next(cfg, s, l).value, w, n);
    }
  }

  lemma NoLater(s: State, n: nat)
    requires Key(SnosRun, n) !in s.db && !Stuck(s, n)
    requires forall w :: w in s.workers ==> !Reaches(s.workers[w], n)
    ensures forall key :: key in s.db && key.jobType == SnosRun ==> key.id <= n
  {
  }

  /** In every state, a missing SNOS job inside the configured range can still come into being if and only
      if it is not stuck. */
  lemma FillableIff(cfg: Range, s: State, n: nat)
    requires InRange(cfg, n) && Key(SnosRun, n) !in s.db
    ensures (exists ls :: Run(cfg, s, ls).Some? && Key(SnosRun, n) in Run(cfg, s, ls).value.db) <==> !Stuck(s, n)
  {
    if Stuck(s, n) {
      forall ls | Run(cfg, s, ls).Some? ensures Key(SnosRun, n) !in Run(cfg, s, ls).value.db {
        RunStuck(cfg, s, ls, n);
      }
    } else {
      var ls, t := CanFill(cfg, s, n);
    }
  }

  /** The state is reached: one failed creation followed by a successful one is enough. */
  lemma GapMayOpen() returns (ls: seq<Label>)
    ensures Run(Range(None, None), START, ls).Some?
    ensures Stuck(Run(Range(None, None), START, ls).value, 0)
  {
    var cfg := Range(None, None);
    RunSnoc(cfg, START, [], FetchSnos(0, None, 1));
    ls := [] + [FetchSnos(0, None, 1)];
    RunSnoc(cfg, START, ls, CreateSnos(0, false));
    ls := ls + [CreateSnos(0, false)];
    RunSnoc(cfg, START, ls, CreateSnos(0, true));
    ls := ls + [CreateSnos(0, true)];
    var s := Run(cfg, START, ls).value;
    assert s.workers == map[0 := SnosLoop(2, 2)];
    assert Key(SnosRun, 1) in s.db && Key(SnosRun, 0) !in s.db;
  }
}
