/** How the requested workers are spread over the agents. The layout
    class (AgentWorkerLayout, built by ClusterUtils.initMemberLayout) and
    the WorkerType enum are not part of this model. Assumed shape: a layout
    is the list of the roles of the workers it places, over the two roles
    MEMBER and CLIENT, and getCount(t) is the number of workers with role t. */
module Layouts {

  /** The role of a worker in the cluster under test. */
  datatype WorkerType = Member | Client

  datatype AgentWorkerLayout = AgentWorkerLayout(workerTypes: seq<WorkerType>)

  /** Number of occurrences of t in s. */
  function Occurrences(s: seq<WorkerType>, t: WorkerType): nat
  {
    if |s| == 0 then 0
    else (if s[|s| - 1] == t then 1 else 0) + Occurrences(s[..|s| - 1], t)
  }

  /** agentWorkerLayout.getCount(t) */
  function Count(layout: AgentWorkerLayout, t: WorkerType): nat
  {
    Occurrences(layout.workerTypes, t)
  }

  /** The per-role count summed over all layouts. */
  function SumCount(layouts: seq<AgentWorkerLayout>, t: WorkerType): nat
  {
    if |layouts| == 0 then 0
    else SumCount(layouts[..|layouts| - 1], t) + Count(layouts[|layouts| - 1], t)
  }

  /** The number of workers over all layouts, whatever their role. */
  function WorkerTotal(layouts: seq<AgentWorkerLayout>): nat
  {
    if |layouts| == 0 then 0
    else WorkerTotal(layouts[1..]) + |layouts[0].workerTypes|
  }

  /** Every worker is either a member or a client. */
  lemma {:induction false} OccurrencesSplit(s: seq<WorkerType>)
    ensures Occurrences(s, Member) + Occurrences(s, Client) == |s|
  {
    if |s| > 0 {
      OccurrencesSplit(s[..|s| - 1]);
    }
  }

  lemma {:induction false} WorkerTotalAppend(a: seq<AgentWorkerLayout>, b: seq<AgentWorkerLayout>)
    ensures WorkerTotal(a + b) == WorkerTotal(a) + WorkerTotal(b)
  {
    if |a| == 0 {
      assert a + b == b;
    } else {
      assert (a + b)[1..] == a[1..] + b;
      WorkerTotalAppend(a[1..], b);
    }
  }

  /** Members plus clients over all layouts is the number of workers laid out. */
  lemma {:induction false} SumCountSplit(layouts: seq<AgentWorkerLayout>)
    ensures SumCount(layouts, Member) + SumCount(layouts, Client) == WorkerTotal(layouts)
  {
    if |layouts| > 0 {
      var init := layouts[..|layouts| - 1];
      var last := layouts[|layouts| - 1];
      SumCountSplit(init);
      OccurrencesSplit(last.workerTypes);
      assert layouts == init + [last];
      WorkerTotalAppend(init, [last]);
      assert WorkerTotal([last]) == |last.workerTypes| by {
        assert [last][1..] == [];
      }
    }
  }
}
