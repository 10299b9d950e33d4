/** The fixpoint loop that collects a process tree. It appears in scripts/dev-runtime.ts,
    scripts/test-processes.ts and scripts/desktop-soak.ts. */
module ProcessTree {

  datatype Process = Process(pid: int, parent: int, group: int, state: string)

  predicate IsChild(table: seq<Process>, parent: int, pid: int) {
    exists e :: e in table && e.parent == parent && e.pid == pid
  }

  /** A chain of parents and children in the table. */
  ghost predicate IsChain(table: seq<Process>, chain: seq<int>) {
    |chain| > 0 && forall i | 0 <= i < |chain| - 1 :: IsChild(table, chain[i], chain[i + 1])
  }

  /** The process is one of the seeds or descends from one. */
  ghost predicate Descends(table: seq<Process>, seeds: set<int>, pid: int) {
    exists chain :: IsChain(table, chain) && chain[0] in seeds && chain[|chain| - 1] == pid
  }

  ghost predicate Closed(table: seq<Process>, owned: set<int>) {
    forall e | e in table && e.parent in owned :: e.pid in owned
  }

  lemma SeedDescends(table: seq<Process>, seeds: set<int>, pid: int)
    requires pid in seeds
    ensures Descends(table, seeds, pid)
  {
    assert IsChain(table, [pid]);
  }

  lemma ChildDescends(table: seq<Process>, seeds: set<int>, e: Process)
    requires e in table && Descends(table, seeds, e.parent)
    ensures Descends(table, seeds, e.pid)
  {
    var chain :| IsChain(table, chain) && chain[0] in seeds && chain[|chain| - 1] == e.parent;
    var longer := chain + [e.pid];
    forall i | 0 <= i < |longer| - 1 ensures IsChild(table, longer[i], longer[i + 1]) {
      if i < |chain| - 1 {
        assert IsChild(table, chain[i], chain[i + 1]);
      } else {
        assert longer[i] == e.parent && longer[i + 1] == e.pid;
      }
    }
    assert IsChain(table, longer);
  }

  lemma {:induction false} ClosedHoldsChain(table: seq<Process>, owned: set<int>, chain: seq<int>)
    requires Closed(table, owned) && IsChain(table, chain) && chain[0] in owned
    ensures chain[|chain| - 1] in owned
    decreases |chain|
  {
    if |chain| > 1 {
      var front := chain[..|chain| - 1];
      forall i | 0 <= i < |front| - 1 ensures IsChild(table, front[i], front[i + 1]) {
        assert IsChild(table, chain[i], chain[i + 1]);
      }
      ClosedHoldsChain(table, owned, front);
      assert IsChild(table, chain[|chain| - 2], chain[|chain| - 2 + 1]);
    }
  }

  /** The set of descendants is contained in every closed set that holds the seeds. */
  lemma DescendantsAreLeast(table: seq<Process>, seeds: set<int>, owned: set<int>)
    requires Closed(table, owned) && seeds <= owned
    ensures forall pid | Descends(table, seeds, pid) :: pid in owned
  {
    forall pid | Descends(table, seeds, pid) ensures pid in owned {
      var chain :| IsChain(table, chain) && chain[0] in seeds && chain[|chain| - 1] == pid;
      ClosedHoldsChain(table, owned, chain);
    }
  }

  lemma MoreRows(table: seq<Process>, other: seq<Process>, seeds: set<int>, pid: int)
    requires forall e :: e in table ==> e in other
    ensures Descends(table, seeds, pid) ==> Descends(other, seeds, pid)
  {
    if Descends(table, seeds, pid) {
      var chain :| IsChain(table, chain) && chain[0] in seeds && chain[|chain| - 1] == pid;
      forall i | 0 <= i < |chain| - 1 ensures IsChild(other, chain[i], chain[i + 1]) {
        assert IsChild(table, chain[i], chain[i + 1]);
      }
      assert IsChain(other, chain);
    }
  }

  /** Neither the order of the table nor repeated rows matter. */
  lemma OrderDoesNotMatter(table: seq<Process>, other: seq<Process>, seeds: set<int>)
    requires forall e :: e in table <==> e in other
    ensures forall pid :: Descends(table, seeds, pid) <==> Descends(other, seeds, pid)
  {
    forall pid ensures Descends(table, seeds, pid) <==> Descends(other, seeds, pid) {
      MoreRows(table, other, seeds, pid);
      MoreRows(other, table, seeds, pid);
    }
  }

  lemma SizeOfSubset(a: set<int>, b: set<int>)
    requires a <= b
    ensures |a| <= |b| && (|a| == |b| ==> a == b)
  {
    var rest := b - a;
    assert b == a + rest;
    assert |b| == |a| + |rest|;
  }

  /** The loop: it ends, with exactly the seeds and their descendants. */
  method GrowOwned(table: seq<Process>, seeds: set<int>) returns (owned: set<int>)
    ensures forall pid :: pid in owned <==> Descends(table, seeds, pid)
    ensures Closed(table, owned) && seeds <= owned
  {
    owned := seeds;
    var size := -1;
    ghost var previous: set<int> := {};
    ghost var pids := seeds + set e | e in table :: e.pid;
    forall pid | pid in seeds ensures Descends(table, seeds, pid) {
      SeedDescends(table, seeds, pid);
    }
    while size != |owned|
      invariant seeds <= owned <= pids && size <= |owned|
      invariant forall pid | pid in owned :: Descends(table, seeds, pid)
      // the last pass went over `previous`, which then had `size` elements
      invariant size >= 0 ==> previous <= owned && |previous| == size
      invariant size >= 0 ==> forall e | e in table && e.parent in previous :: e.pid in owned
      decreases |pids| - size
    {
      SizeOfSubset(owned, pids);
      size := |owned|;
      previous := owned;
      var i := 0;
      while i < |table|
        invariant 0 <= i <= |table|
        invariant previous <= owned <= pids
        invariant forall pid | pid in owned :: Descends(table, seeds, pid)
        invariant forall k | 0 <= k < i && table[k].parent in previous :: table[k].pid in owned
      {
        var e := table[i];
        if e.parent in owned {
          ChildDescends(table, seeds, e);
          owned := owned + {e.pid};
        }
        i := i + 1;
      }
      SizeOfSubset(previous, owned);
    }
    SizeOfSubset(previous, owned);
    DescendantsAreLeast(table, seeds, owned);
  }

  /** The rows of the table whose pid is in `ids`, in table order. */
  function RowsOf(table: seq<Process>, ids: set<int>): seq<Process> {
    if table == [] then []
    else
      var front := RowsOf(table[..|table| - 1], ids);
      if table[|table| - 1].pid in ids then front + [table[|table| - 1]] else front
  }

  /** processTree of the soak sampler. */
  method ProcessTreeOf(table: seq<Process>, root: int) returns (rows: seq<Process>)
    ensures exists ids: set<int> ::
              (forall pid :: pid in ids <==> Descends(table, {root}, pid)) && rows == RowsOf(table, ids)
  {
    var ids := GrowOwned(table, {root});
    rows := [];
    var i := 0;
    while i < |table|
      invariant 0 <= i <= |table| && rows == RowsOf(table[..i], ids)
    {
      assert table[..i + 1][..i] == table[..i];
      if table[i].pid in ids {
        rows := rows + [table[i]];
      }
      i := i + 1;
    }
    assert table[..i] == table;
  }

  /** The pids of the members of the groups. */
  function Members(table: seq<Process>, groups: set<int>): set<int> {
    set e | e in table && e.group in groups :: e.pid
  }

  /** The groups of the rows whose pid is in `owned`. */
  function GroupsOf(table: seq<Process>, owned: set<int>): set<int> {
    set e | e in table && e.pid in owned :: e.group
  }

  lemma OneMoreRow(table: seq<Process>, owned: set<int>, e: Process)
    ensures GroupsOf(table + [e], owned) == GroupsOf(table, owned) + if e.pid in owned then {e.group} else {}
  {
  }

  /** The groups of the owned rows are collected. */
  method CollectGroups(table: seq<Process>, processGroupId: int, owned: set<int>) returns (groups: set<int>)
    ensures groups == {processGroupId} + GroupsOf(table, owned)
  {
    groups := {processGroupId};
    var i := 0;
    while i < |table|
      invariant 0 <= i <= |table| && groups == {processGroupId} + GroupsOf(table[..i], owned)
    {
      assert table[..i + 1] == table[..i] + [table[i]];
      OneMoreRow(table[..i], owned, table[i]);
      if table[i].pid in owned {
        groups := groups + {table[i].group};
      }
      i := i + 1;
    }
    assert table[..i] == table;
  }

  /** devProcessGroups: the group itself, and every group with a member that descends from one of its members. */
  method DevProcessGroups(table: seq<Process>, processGroupId: int) returns (groups: set<int>)
    ensures var members := Members(table, {processGroupId});
            groups == {processGroupId} + set e | e in table && Descends(table, members, e.pid) :: e.group
  {
    var owned := GrowOwned(table, Members(table, {processGroupId}));
    groups := CollectGroups(table, processGroupId, owned);
  }
}
