/** A load-balanced process group: round-robin with a cursor, weighted random selection, first-of-list.
    Integers are unbounded: the sum of the weights is assumed to fit Go's int. */
module LoadBalancing {
  import opened Common

  datatype Strategy = RoundRobin | WeightedRoundRobin | LeastConnections

  datatype Member = Member(nodeID: string, processID: string, weight: int)

  /** Outcome of choosing a target; OutOfRange is the index panic of a cursor left beyond the list. */
  datatype Choice = NoProcesses | OutOfRange | Chosen(index: nat)

  function Weights(ms: seq<Member>): (ws: seq<int>)
    ensures |ws| == |ms| && forall i :: 0 <= i < |ms| ==> ws[i] == ms[i].weight
  {
    seq(|ms|, i requires 0 <= i < |ms| => ms[i].weight)
  }

  // ----- Weighted selection

  function Prefix(ws: seq<int>, i: nat): int
    requires i <= |ws|
  {
    if i == 0 then 0 else Prefix(ws, i - 1) + ws[i - 1]
  }

  function Total(ws: seq<int>): int {
    Prefix(ws, |ws|)
  }

  /** Running maximum of 0 and the prefix sums. */
  function Peak(ws: seq<int>, i: nat): int
    requires i <= |ws|
  {
    if i == 0 then 0
    else if Prefix(ws, i) > Peak(ws, i - 1) then Prefix(ws, i)
    else Peak(ws, i - 1)
  }

  lemma {:induction false} PeakClimbs(ws: seq<int>, i: nat, j: nat)
    requires i <= j <= |ws|
    ensures Peak(ws, i) <= Peak(ws, j) && Prefix(ws, i) <= Peak(ws, j) && 0 <= Peak(ws, j)
  {
    if i < j {
      PeakClimbs(ws, i, j - 1);
    } else if i > 0 {
      PeakClimbs(ws, i - 1, j - 1);
    }
  }

  /** The scan stops at i exactly for the selections between two consecutive peaks. */
  ghost predicate Picks(ws: seq<int>, selection: int, i: nat) {
    i < |ws| && Peak(ws, i) <= selection < Peak(ws, i + 1)
  }

  /** Each selection picks at most one member, and every selection below the total picks one. */
  lemma {:induction false} ExactlyOnePick(ws: seq<int>, selection: int, k: nat) returns (i: nat)
    requires k <= |ws| && 0 <= selection < Peak(ws, k)
    ensures i < k && Picks(ws, selection, i)
    ensures forall j: nat :: Picks(ws, selection, j) ==> j == i
  {
    if selection < Peak(ws, k - 1) {
      i := ExactlyOnePick(ws, selection, k - 1);
    } else {
      i := k - 1;
      forall j: nat | Picks(ws, selection, j)
        ensures j == i
      {
        if j < i {
          PeakClimbs(ws, j + 1, i);
        } else if i < j {
          PeakClimbs(ws, i + 1, j);
        }
      }
    }
  }

  /** How many selections in [0, bound) pick member i. */
  ghost function CountPicks(ws: seq<int>, i: nat, bound: nat): nat {
    if bound == 0 then 0
    else CountPicks(ws, i, bound - 1) + (if Picks(ws, bound - 1, i) then 1 else 0)
  }

  /** Of the selections below any bound, member i gets those between its two peaks. */
  lemma {:induction false} SelectionShare(ws: seq<int>, i: nat, bound: nat)
    requires i < |ws|
    ensures CountPicks(ws, i, bound) == Min(Peak(ws, i + 1), bound) - Min(Peak(ws, i), bound)
  {
    PeakClimbs(ws, i, i + 1);
    PeakClimbs(ws, 0, i);
    if bound > 0 {
      SelectionShare(ws, i, bound - 1);
    }
  }

  lemma {:induction false} NonnegativePeaks(ws: seq<int>, i: nat)
    requires i <= |ws| && forall k :: 0 <= k < |ws| ==> ws[k] >= 0
    ensures Peak(ws, i) == Prefix(ws, i) && Prefix(ws, i) <= Total(ws)
    decreases |ws| - i
  {
    PeakIsPrefix(ws, i);
    if i < |ws| {
      NonnegativePeaks(ws, i + 1);
    }
  }

  lemma {:induction false} PeakIsPrefix(ws: seq<int>, i: nat)
    requires i <= |ws| && forall k :: 0 <= k < |ws| ==> ws[k] >= 0
    ensures Peak(ws, i) == Prefix(ws, i) && Prefix(ws, i) >= 0
  {
    if i > 0 {
      PeakIsPrefix(ws, i - 1);
    }
  }

  /** Without negative weights each member is picked by exactly `weight` of the `Total` selections. */
  lemma ShareIsWeight(ws: seq<int>, i: nat)
    requires i < |ws| && forall k :: 0 <= k < |ws| ==> ws[k] >= 0
    requires Total(ws) > 0
    ensures CountPicks(ws, i, Total(ws)) == ws[i]
  {
    NonnegativePeaks(ws, i);
    NonnegativePeaks(ws, i + 1);
    SelectionShare(ws, i, Total(ws));
  }

  // ----- Round-robin

  function Next(n: nat, c: nat): (c': nat)
    requires c < n
    ensures c' < n && c' == (c + 1) % n
  {
    if c + 1 == n then 0 else c + 1
  }

  /** The cursor after k sends to n members, starting at s. */
  function Cursor(n: nat, s: nat, k: nat): (c: nat)
    requires s < n
    ensures c < n
  {
    if k == 0 then s else Next(n, Cursor(n, s, k - 1))
  }

  /** Turns member i gets in k consecutive sends. */
  function Turns(n: nat, s: nat, i: nat, k: nat): nat
    requires s < n
  {
    if k == 0 then 0 else Turns(n, s, i, k - 1) + (if Cursor(n, s, k - 1) == i then 1 else 0)
  }

  /** Sends until member i has its first turn. */
  function Lag(n: nat, s: nat, i: nat): nat
    requires s < n && i < n
  {
    if i >= s then i - s else i - s + n
  }

  /** After q full rounds and r more sends member i had q turns, plus one if the partial round reached it. */
  lemma {:induction false} TurnCount(n: nat, s: nat, i: nat, q: nat, r: nat, k: nat)
    requires s < n && i < n && r <= n && k == q * n + r
    ensures Cursor(n, s, k) == if s + r < n then s + r else s + r - n
    ensures Turns(n, s, i, k) == q + (if Lag(n, s, i) < r then 1 else 0)
    decreases q, r
  {
    if r > 0 {
      TurnCount(n, s, i, q, r - 1, k - 1);
    } else if q > 0 {
      assert q * n == (q - 1) * n + n;
      TurnCount(n, s, i, q - 1, n, k);
    }
  }

  /** Fairness: any k consecutive sends give each member floor(k/n) or ceil(k/n) turns. */
  lemma RoundRobinIsFair(n: nat, s: nat, i: nat, k: nat)
    requires s < n && i < n
    ensures Turns(n, s, i, k) == k / n || (Turns(n, s, i, k) == k / n + 1 && k % n > 0)
  {
    TurnCount(n, s, i, k / n, k % n, k);
  }

  class LoadBalancedProcessGroup {
    var processList: seq<Member>
    const strategy: Strategy
    var nextIndex: nat

    /** nextIndex < max(1, len) */
    predicate InBounds()
      reads this
    {
      nextIndex == 0 || nextIndex < |processList|
    }

    constructor (strategy: Strategy)
      ensures processList == [] && InBounds() && this.strategy == strategy
    {
      this.strategy := strategy;
      processList, nextIndex := [], 0;
    }

    method AddProcess(m: Member)
      modifies this
      ensures processList == old(processList) + [m] && nextIndex == old(nextIndex)
      ensures old(InBounds()) ==> InBounds()
    {
      processList := processList + [m];
    }

    /** Removes the first match. The cursor does not move, so it stays in bounds exactly when nothing matched, the
        list had one member, or the cursor was not on the last one. */
    method RemoveProcess(nodeID: string, processID: string) returns (ghost at: nat)
      modifies this
      ensures nextIndex == old(nextIndex)
      ensures at <= |old(processList)| && forall j :: 0 <= j < at ==> !Matches(old(processList)[j], nodeID, processID)
      ensures if at == |old(processList)| then processList == old(processList)
              else Matches(old(processList)[at], nodeID, processID)
                   && processList == old(processList)[..at] + old(processList)[at + 1..]
      ensures old(InBounds()) ==>
                (InBounds() <==> at == |old(processList)| || |old(processList)| == 1
                                 || old(nextIndex) < |old(processList)| - 1)
    {
      var i := 0;
      while i < |processList|
        invariant 0 <= i <= |processList|
        invariant processList == old(processList) && nextIndex == old(nextIndex)
        invariant forall j :: 0 <= j < i ==> !Matches(processList[j], nodeID, processID)
      {
        if processList[i].nodeID == nodeID && processList[i].processID == processID {
          at := i;
          processList := processList[..i] + processList[i + 1..];
          return;
        }
        i := i + 1;
      }
      at := i;
    }

    /** Takes the member under the cursor and advances; a cursor beyond the list panics. */
    method Rotate() returns (c: Choice)
      requires processList != []
      modifies this`nextIndex
      ensures c == if old(nextIndex) < |processList| then Chosen(old(nextIndex)) else OutOfRange
      ensures nextIndex == if old(nextIndex) < |processList| then Next(|processList|, old(nextIndex))
                           else old(nextIndex)
    {
      if nextIndex >= |processList| {
        return OutOfRange;
      }
      c := Chosen(nextIndex);
      assert Next(|processList|, nextIndex) == (nextIndex + 1) % |processList|;
      nextIndex := (nextIndex + 1) % |processList|;
    }

    /** Chooses the target of a send; `random` is the value drawn for a weighted choice. */
    method Choose(random: int) returns (c: Choice)
      requires var t := Total(Weights(processList)); t > 0 ==> 0 <= random < t
      modifies this`nextIndex
      ensures c == NoProcesses <==> processList == []
      ensures old(InBounds()) ==> InBounds() && c != OutOfRange
      ensures processList != [] && (strategy == RoundRobin
                                    || (strategy == WeightedRoundRobin && Total(Weights(processList)) <= 0)) ==>
                if old(nextIndex) < |processList|
                then c == Chosen(old(nextIndex)) && nextIndex == Next(|processList|, old(nextIndex))
                else c == OutOfRange && nextIndex == old(nextIndex)
      ensures strategy == WeightedRoundRobin && Total(Weights(processList)) > 0 ==>
                c.Chosen? && Picks(Weights(processList), random, c.index) && nextIndex == old(nextIndex)
      ensures strategy == LeastConnections && processList != [] ==> c == Chosen(0) && nextIndex == old(nextIndex)
    {
      if |processList| == 0 {
        return NoProcesses;
      }
      match strategy
      case RoundRobin =>
        c := Rotate();
      case WeightedRoundRobin =>
        ghost var ws := Weights(processList);
        var totalWeight := 0;
        for i := 0 to |processList|
          invariant totalWeight == Prefix(ws, i)
        {
          totalWeight := totalWeight + processList[i].weight;
        }
        if totalWeight <= 0 {
          c := Rotate();
        } else {
          c := Scan(random);
        }
      case LeastConnections =>
        c := Chosen(0);
    }

    /** The first member whose running total exceeds the selection. */
    method Scan(selection: int) returns (c: Choice)
      requires processList != [] && 0 <= selection < Total(Weights(processList))
      ensures c.Chosen? && Picks(Weights(processList), selection, c.index)
      ensures var ws, i := Weights(processList), c.index;
        selection < Prefix(ws, i + 1) && forall j {:trigger Prefix(ws, j)} :: 0 <= j <= i ==> Prefix(ws, j) <= selection
    {
      ghost var ws := Weights(processList);
      var runningTotal := 0;
      for i := 0 to |processList|
        invariant runningTotal == Prefix(ws, i) && Peak(ws, i) <= selection
        invariant forall j {:trigger Prefix(ws, j)} :: 0 <= j <= i ==> Prefix(ws, j) <= selection
      {
        runningTotal := runningTotal + processList[i].weight;
        if selection < runningTotal {
          return Chosen(i);
        }
      }
      assert false;
    }

    /** k round-robin sends without a membership change: the targets follow the cursor, and each member is chosen
        floor(k/n) or ceil(k/n) times. */
    method SendMany(k: nat) returns (targets: seq<nat>)
      requires strategy == RoundRobin && processList != [] && InBounds()
      modifies this`nextIndex
      ensures |targets| == k
      ensures forall j {:trigger targets[j]} :: 0 <= j < k ==> targets[j] == Cursor(|processList|, old(nextIndex), j)
      ensures nextIndex == Cursor(|processList|, old(nextIndex), k)
      ensures var n := |processList|;
        forall i: nat :: i < n ==> k / n <= Count(targets, i) <= k / n + (if k % n > 0 then 1 else 0)
    {
      targets := [];
      ghost var n, s := |processList|, nextIndex;
      for j := 0 to k
        invariant |targets| == j && nextIndex == Cursor(n, s, j)
        invariant forall l {:trigger targets[l]} :: 0 <= l < j ==> targets[l] == Cursor(n, s, l)
      {
        var c := Rotate();
        targets := targets + [c.index];
      }
      forall i: nat | i < n
        ensures k / n <= Count(targets, i) <= k / n + (if k % n > 0 then 1 else 0)
      {
        TurnsAreChoices(n, s, i, targets);
        RoundRobinIsFair(n, s, i, k);
      }
    }
  }

  /** A removal that leaves the cursor behind: after two members joined and one message was sent, one member is removed,
      and the next send panics. */
  method SendAfterRemove(first: Member, second: Member, gone: Member) returns (c: Choice)
    requires gone == first || gone == second
    ensures c == OutOfRange
  {
    var group := new LoadBalancedProcessGroup(RoundRobin);
    group.AddProcess(first);
    group.AddProcess(second);
    c := group.Choose(0);
    ghost var members := group.processList;
    assert Matches(members[if gone == first then 0 else 1], gone.nodeID, gone.processID);
    ghost var at := group.RemoveProcess(gone.nodeID, gone.processID);
    assert |group.processList| == 1;
    c := group.Choose(0);
  }

  /** The turns of a member are how often it is chosen. */
  lemma {:induction false} TurnsAreChoices(n: nat, s: nat, i: nat, targets: seq<nat>)
    requires s < n
    requires forall j {:trigger targets[j]} :: 0 <= j < |targets| ==> targets[j] == Cursor(n, s, j)
    ensures Count(targets, i) == Turns(n, s, i, |targets|)
  {
    if targets != [] {
      var k := |targets| - 1;
      TurnsAreChoices(n, s, i, targets[..k]);
      assert targets[k] == Cursor(n, s, k);
    }
  }

  predicate Matches(m: Member, nodeID: string, processID: string) {
    m.nodeID == nodeID && m.processID == processID
  }
}
