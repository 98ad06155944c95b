/** The morning brief (app/morning_brief.py): open tasks in rank order, as many as the day holds. */
module MorningBrief {
  import opened Wrappers
  import opened Gatekeeper
  import opened Tables

  const DEFAULT_ASSUMED_EFFORT_MINUTES := 30

  predicate OpenTask(item: Item) {
    item.draft.kind == TASK && item.status == OPEN
  }

  predicate Due(item: Item, today: int) {
    item.draft.deadline.Some? && item.draft.deadline.value <= today
  }

  function DecisionRank(decision: string): nat {
    match decision
    case "do_now" => 0
    case "schedule" => 1
    case "delegate" => 2
    case "archive" => 3
    case "decline" => 4
    case _ => 5
  }

  /** ORDER BY due DESC, decision rank, score DESC NULLS LAST, id */
  predicate Before(items: seq<Item>, today: int, i: nat, j: nat)
    requires i < |items| && j < |items|
  {
    var a, b := items[i], items[j];
    if Due(a, today) != Due(b, today) then Due(a, today)
    else if DecisionRank(a.draft.decision) != DecisionRank(b.draft.decision) then
      DecisionRank(a.draft.decision) < DecisionRank(b.draft.decision)
    else if a.draft.score != b.draft.score then
      a.draft.score.Some? && (b.draft.score.None? || a.draft.score.value > b.draft.score.value)
    else i < j
  }

  /** The query orders every two tasks one way and never both. */
  lemma BeforeIsStrictTotalOrder(items: seq<Item>, today: int, i: nat, j: nat, k: nat)
    requires i < |items| && j < |items| && k < |items|
    ensures !Before(items, today, i, i)
    ensures i != j ==> Before(items, today, i, j) != Before(items, today, j, i)
    ensures Before(items, today, i, j) && Before(items, today, j, k) ==> Before(items, today, i, k)
  {
  }

  /** Both decisions are the same, or neither is one of the five. */
  predicate SameRank(a: string, b: string) {
    var known := ["do_now", "schedule", "delegate", "archive", "decline"];
    a == b || (a !in known && b !in known)
  }

  /** The first decision comes before the second, and a known one before any other. */
  predicate RanksBefore(a: string, b: string) {
    var known := ["do_now", "schedule", "delegate", "archive", "decline"];
    a in known && (b in known ==> exists p, q :: 0 <= p < q < |known| && known[p] == a && known[q] == b)
  }

  /** Due tasks first, then by decision, then by score from the highest down to none, then by id. */
  lemma OrderMeans(items: seq<Item>, today: int, i: nat, j: nat)
    requires i < |items| && j < |items|
    ensures var a, b := items[i].draft, items[j].draft;
            var due: bool := a.deadline.Some? && a.deadline.value <= today;
            var otherDue: bool := b.deadline.Some? && b.deadline.value <= today;
            && (due && !otherDue ==> Before(items, today, i, j))
            && (due == otherDue && RanksBefore(a.decision, b.decision) ==> Before(items, today, i, j))
            && (due == otherDue && SameRank(a.decision, b.decision) ==>
                  && (a.score.Some? && b.score.Some? && a.score.value > b.score.value ==> Before(items, today, i, j))
                  && (a.score.Some? && b.score.None? ==> Before(items, today, i, j))
                  && (a.score == b.score && i < j ==> Before(items, today, i, j)))
  {
    RankOfDecision(items[i].draft.decision);
    RankOfDecision(items[j].draft.decision);
    hide DecisionRank;
  }

  lemma RankOfDecision(d: string)
    ensures var known := ["do_now", "schedule", "delegate", "archive", "decline"];
            && (d !in known <==> DecisionRank(d) == 5)
            && forall p :: 0 <= p < |known| ==> (known[p] == d <==> DecisionRank(d) == p)
  {
  }

  predicate Sorted(items: seq<Item>, today: int, rows: seq<nat>) {
    && (forall p :: 0 <= p < |rows| ==> rows[p] < |items|)
    && (forall p, q :: 0 <= p < q < |rows| ==> Before(items, today, rows[p], rows[q]))
  }

  /** The rows of the query: exactly the open tasks, in order. */
  ghost predicate Ranked(items: seq<Item>, today: int, rows: seq<nat>) {
    Sorted(items, today, rows) && forall i: nat :: i in rows <==> i < |items| && OpenTask(items[i])
  }

  function Insert(items: seq<Item>, today: int, rows: seq<nat>, i: nat): (out: seq<nat>)
    requires i < |items| && Sorted(items, today, rows) && i !in rows
    ensures Sorted(items, today, out)
    ensures forall k: nat :: k in out <==> k == i || k in rows
  {
    if rows == [] || Before(items, today, i, rows[0]) then
      ConsSorted(items, today, i, rows);
      [i] + rows
    else
      BeforeIsStrictTotalOrder(items, today, i, rows[0], i);
      HeadOrTail(rows, rows[0]);
      var rest := Insert(items, today, rows[1..], i);
      InsertedSorted(items, today, rows, i, rest);
      [rows[0]] + rest
  }

  lemma ConsSorted(items: seq<Item>, today: int, i: nat, rows: seq<nat>)
    requires i < |items| && Sorted(items, today, rows) && (rows == [] || Before(items, today, i, rows[0]))
    ensures Sorted(items, today, [i] + rows)
  {
    forall p | 0 < p < |rows|
      ensures Before(items, today, i, rows[p])
    {
      BeforeIsStrictTotalOrder(items, today, i, rows[0], rows[p]);
    }
    hide Before;
  }

  lemma InsertedSorted(items: seq<Item>, today: int, rows: seq<nat>, i: nat, rest: seq<nat>)
    requires i < |items| && Sorted(items, today, rows) && rows != [] && Before(items, today, rows[0], i)
    requires Sorted(items, today, rest) && forall k: nat :: k in rest <==> k == i || k in rows[1..]
    ensures Sorted(items, today, [rows[0]] + rest)
    ensures forall k: nat :: k in [rows[0]] + rest <==> k == i || k in rows
  {
    hide Before;
    forall p | 0 <= p < |rest|
      ensures Before(items, today, rows[0], rest[p])
    {
      assert rest[p] in rest;
      if rest[p] != i {
        var q :| 0 <= q < |rows[1..]| && rows[1..][q] == rest[p];
        assert rows[q + 1] == rest[p];
      }
    }
    assert rows == [rows[0]] + rows[1..];
  }

  /** The open tasks among the first n items, ranked. */
  function Ranking(items: seq<Item>, today: int, n: nat): (rows: seq<nat>)
    requires n <= |items|
    ensures Sorted(items, today, rows)
    ensures forall i: nat :: i in rows <==> i < n && OpenTask(items[i])
  {
    if n == 0 then []
    else
      var rest := Ranking(items, today, n - 1);
      if OpenTask(items[n - 1]) then Insert(items, today, rest, n - 1) else rest
  }

  lemma HeadNotInTail(items: seq<Item>, today: int, rows: seq<nat>)
    requires Sorted(items, today, rows) && rows != []
    ensures rows[0] !in rows[1..]
  {
    BeforeIsStrictTotalOrder(items, today, rows[0], rows[0], rows[0]);
    forall p | 0 <= p < |rows[1..]|
      ensures rows[1..][p] != rows[0]
    {
      assert rows[1..][p] == rows[p + 1] && Before(items, today, rows[0], rows[p + 1]);
    }
  }

  lemma HeadOrTail(rows: seq<nat>, i: nat)
    requires rows != []
    ensures i in rows <==> i == rows[0] || i in rows[1..]
  {
    assert rows == [rows[0]] + rows[1..];
  }

  /** The ranking is determined by the set of open tasks. */
  lemma {:induction false} RankingUnique(items: seq<Item>, today: int, a: seq<nat>, b: seq<nat>)
    requires Sorted(items, today, a) && Sorted(items, today, b)
    requires forall i: nat :: i in a <==> i in b
    ensures a == b
  {
    assert a != [] ==> a[0] in a;
    assert b != [] ==> b[0] in b;
    if a != [] {
      assert a[0] in b && b[0] in a;
      BeforeIsStrictTotalOrder(items, today, a[0], b[0], a[0]);
      assert a[0] == b[0];
      forall i: nat
        ensures i in a[1..] <==> i in b[1..]
      {
        HeadNotInTail(items, today, a);
        HeadNotInTail(items, today, b);
        HeadOrTail(a, i);
        HeadOrTail(b, i);
      }
      RankingUnique(items, today, a[1..], b[1..]);
    }
  }

  /** Two tables with the same open tasks, whatever their other items. */
  predicate SameOpenTasks(a: seq<Item>, b: seq<Item>) {
    && (forall i :: 0 <= i < |a| && OpenTask(a[i]) ==> i < |b| && b[i] == a[i])
    && (forall i :: 0 <= i < |b| && OpenTask(b[i]) ==> i < |a| && a[i] == b[i])
  }

  /** The list depends on the open tasks only: closed items and notes may differ at will. */
  lemma {:induction false} RankingOfOpenTasks(a: seq<Item>, b: seq<Item>, today: int)
    requires SameOpenTasks(a, b)
    ensures Ranking(a, today, |a|) == Ranking(b, today, |b|)
  {
    var rows := Ranking(a, today, |a|);
    forall p | 0 <= p < |rows|
      ensures rows[p] < |b| && rows[p] < |a| && b[rows[p]] == a[rows[p]]
    {
      assert rows[p] in rows;
    }
    forall p, q | 0 <= p < q < |rows|
      ensures Before(b, today, rows[p], rows[q])
    {
      assert Before(a, today, rows[p], rows[q]);
    }
    RankingUnique(b, today, rows, Ranking(b, today, |b|));
  }

  // ---- The capacity walk ----

  function Assumed(item: Item): int {
    if item.draft.effort.Some? then item.draft.effort.value else DEFAULT_ASSUMED_EFFORT_MINUTES
  }

  function Total(items: seq<Item>, rows: seq<nat>): int
    requires forall p :: 0 <= p < |rows| ==> rows[p] < |items|
  {
    if rows == [] then 0 else Total(items, rows[..|rows| - 1]) + Assumed(items[rows[|rows| - 1]])
  }

  /** total <= max(weekly, 0) / 7 * 60, in whole minutes. */
  predicate Fits(total: int, weekly: int) {
    7 * total <= 60 * (if weekly > 0 then weekly else 0)
  }

  /** Ranked are the open tasks; a task without effort counts as half an hour; a day is a seventh of the week. */
  lemma BriefMeasures(item: Item, total: int, weekly: int)
    ensures OpenTask(item) <==> item.draft.kind == "task" && item.status == "open"
    ensures Assumed(item) == if item.draft.effort.Some? then item.draft.effort.value else 30
    ensures weekly > 0 ==> (Fits(total, weekly) <==> total as real <= weekly as real / 7.0 * 60.0)
    ensures weekly <= 0 ==> (Fits(total, weekly) <==> total <= 0)
  {
  }

  /**
   The first k rows are a maximal prefix that fits the day: nothing is left out while it fits,
   every longer list than the single top task fits, and the top task is always there.
   */
  ghost predicate MaximalPrefix(items: seq<Item>, rows: seq<nat>, weekly: int, k: nat)
    requires forall p :: 0 <= p < |rows| ==> rows[p] < |items|
  {
    && k <= |rows| && (rows != [] ==> k > 0)
    && (forall m :: 2 <= m <= k ==> Fits(Total(items, rows[..m]), weekly))
    && (k < |rows| ==> !Fits(Total(items, rows[..k + 1]), weekly))
  }

  lemma {:induction false} TotalSnoc(items: seq<Item>, rows: seq<nat>, n: nat)
    requires n < |rows| && forall p :: 0 <= p < |rows| ==> rows[p] < |items|
    ensures Total(items, rows[..n + 1]) == Total(items, rows[..n]) + Assumed(items[rows[n]])
  {
    assert rows[..n + 1][..n] == rows[..n];
  }

  /** The capacity walk over the ranked rows. */
  method Walk(items: seq<Item>, rows: seq<nat>, weekly: int) returns (included: seq<nat>)
    requires forall p :: 0 <= p < |rows| ==> rows[p] < |items|
    ensures |included| <= |rows| && included == rows[..|included|]
    ensures MaximalPrefix(items, rows, weekly, |included|)
  {
    hide Total, Assumed;
    var daily := 60 * (if weekly > 0 then weekly else 0);
    included := [];
    var total := 0;
    assert total == Total(items, rows[..0]) by {
      EmptyTotal(items, rows);
    }
    for n := 0 to |rows|
      invariant included == rows[..n]
      invariant total == Total(items, rows[..n])
      invariant forall m :: 2 <= m <= n ==> Fits(Total(items, rows[..m]), weekly)
    {
      TotalSnoc(items, rows, n);
      var assumed := Assumed(items[rows[n]]);
      if included != [] && 7 * (total + assumed) > daily {
        break;
      }
      included := included + [rows[n]];
      total := total + assumed;
    }
  }

  lemma {:induction false} EmptyTotal(items: seq<Item>, rows: seq<nat>)
    requires forall p :: 0 <= p < |rows| ==> rows[p] < |items|
    ensures Total(items, rows[..0]) == 0
  {
  }

  /** The tasks of the brief and the number of tasks beyond it. */
  method Build(items: seq<Item>, today: int, weekly: int) returns (included: seq<nat>, remaining: nat)
    ensures var rows := Ranking(items, today, |items|);
            && Ranked(items, today, rows)
            && |included| + remaining == |rows|
            && included == rows[..|included|]
            && MaximalPrefix(items, rows, weekly, |included|)
  {
    hide MaximalPrefix;
    var rows := Ranking(items, today, |items|);
    included := Walk(items, rows, weekly);
    remaining := |rows| - |included|;
  }

  /** Only one length qualifies, and it never shrinks when the capacity grows. */
  lemma MoreCapacityListsMore(items: seq<Item>, rows: seq<nat>, weekly: int, k: nat, more: int, l: nat)
    requires forall p :: 0 <= p < |rows| ==> rows[p] < |items|
    requires weekly <= more && MaximalPrefix(items, rows, weekly, k) && MaximalPrefix(items, rows, more, l)
    ensures k <= l
    ensures weekly == more ==> k == l
  {
    assert l < |rows| ==> !Fits(Total(items, rows[..l + 1]), more);
    assert k < |rows| ==> !Fits(Total(items, rows[..k + 1]), weekly);
  }

  /** No omitted task outranks a listed one; when a due task is omitted, every listed task is due. */
  lemma OmittedRankLower(items: seq<Item>, today: int, rows: seq<nat>, k: nat, listed: nat, omitted: nat)
    requires Sorted(items, today, rows) && k <= |rows|
    requires listed in rows[..k] && omitted in rows[k..]
    ensures listed < |items| && omitted < |items| && Before(items, today, listed, omitted)
    ensures Due(items[omitted], today) ==> Due(items[listed], today)
  {
    var p :| 0 <= p < k && rows[p] == listed;
    var q :| 0 <= q < |rows[k..]| && rows[k..][q] == omitted;
    assert rows[k + q] == omitted;
  }
}
