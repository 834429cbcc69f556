/** The lottery scheduler of proc.c: two passes over the process table, the first to add
    up the tickets of the RUNNABLE processes, the second to find who holds the winner. */
module Lottery {
  datatype Slot = Slot(pid: int, runnable: bool, running: bool, ticket: int)

  const RANDOM_VALUES: nat := 0x8000_0000  // rand_int() & 0x7FFFFFFF

  /** Tickets of the RUNNABLE processes among the first k. */
  function Tickets(table: seq<Slot>, k: nat): int
    requires k <= |table|
  {
    if k == 0 then 0 else Tickets(table, k - 1) + Share(table[k - 1])
  }

  function Share(s: Slot): int {
    if s.runnable then s.ticket else 0
  }

  /** Positive tickets whose sum an int holds. */
  ghost predicate Fair(table: seq<Slot>) {
    (forall i :: 0 <= i < |table| && table[i].runnable ==> table[i].ticket > 0) && Tickets(table, |table|) < 0x8000_0000
  }

  /** Process i holds the winning ticket. */
  predicate Wins(table: seq<Slot>, winner: int, i: nat) {
    i < |table| && table[i].runnable && Tickets(table, i) <= winner < Tickets(table, i + 1)
  }

  lemma {:induction false} TicketsGrow(table: seq<Slot>, i: nat, j: nat)
    requires i <= j <= |table| && forall m :: 0 <= m < |table| && table[m].runnable ==> table[m].ticket > 0
    ensures 0 <= Tickets(table, i) <= Tickets(table, j)
    decreases j
  {
    if i < j {
      TicketsGrow(table, i, j - 1);
    } else if j > 0 {
      TicketsGrow(table, j - 1, j - 1);
    }
  }

  /** The table each time one of the 2n locks of a draw has been taken. */
  predicate Views(views: seq<seq<Slot>>, n: nat) {
    |views| == 2 * n && forall k :: 0 <= k < |views| ==> |views[k]| == n
  }

  /** Each slot as it is when the pass that begins with lock `base` comes to it. */
  function Seen(views: seq<seq<Slot>>, n: nat, base: nat): (t: seq<Slot>)
    requires Views(views, n) && base + n <= 2 * n
    ensures |t| == n
  {
    seq(n, i requires 0 <= i < n => views[base + i][i])
  }

  /** The views of a table that nobody changes. */
  function Still(table: seq<Slot>): (views: seq<seq<Slot>>)
    ensures Views(views, |table|) && forall k :: 0 <= k < |views| ==> views[k] == table
  {
    seq(2 * |table|, k requires 0 <= k < 2 * |table| => table)
  }

  lemma StillSeen(table: seq<Slot>)
    ensures Seen(Still(table), |table|, 0) == table && Seen(Still(table), |table|, |table|) == table
  {
  }

  lemma NoTickets(table: seq<Slot>)
    ensures Tickets(table, 0) == 0
  {
  }

  class Scheduler {
    var table: seq<Slot>

    /** One draw. The other CPUs and this one's interrupts change the table meanwhile: views[k]
        is the table when the scheduler has taken its k-th lock. It draws among the tickets
        that it saw first, and who holds the winner is decided by what it sees the second time;
        -1 when it saw nothing RUNNABLE, or the second sum does not reach the winner. */
    method Draw(random: nat, views: seq<seq<Slot>>) returns (won: int)
      requires Views(views, |table|) && Fair(Seen(views, |table|, 0)) && Fair(Seen(views, |table|, |table|))
      modifies this`table
      ensures |table| == |old(table)|
      ensures var n := |old(table)|;
              var total, second := Tickets(Seen(views, n, 0), n), Seen(views, n, n);
              && (won == -1 <==> total == 0 || Tickets(second, n) <= random % 0x8000_0000 % total)
              && (won != -1 ==> 0 <= won < n && Wins(second, random % 0x8000_0000 % total, won)
                                && table == views[n + won][won := views[n + won][won]
                                              .(runnable := false, running := true)])
    {
      hide Seen, Tickets;
      ghost var first, second := Seen(views, |table|, 0), Seen(views, |table|, |table|);
      TicketsGrow(first, 0, |table|);
      TicketsGrow(second, 0, |table|);
      NoTickets(first);
      var totalTickets := Count(views);
      if totalTickets == 0 {
        return -1;
      }
      won := Pick(views, random % RANDOM_VALUES % totalTickets);
    }

    /** The first pass. */
    method Count(views: seq<seq<Slot>>) returns (totalTickets: int)
      requires Views(views, |table|)
      modifies this`table
      ensures |table| == |old(table)| && totalTickets == Tickets(Seen(views, |table|, 0), |table|)
    {
      var n, p := |table|, 0;
      totalTickets := 0;
      while p < n
        invariant 0 <= p <= n == |table| && totalTickets == Tickets(Seen(views, n, 0), p)
      {
        table := views[p];
        if table[p].runnable {
          totalTickets := totalTickets + table[p].ticket;
        }
        p := p + 1;
      }
    }

    /** The second pass. */
    method Pick(views: seq<seq<Slot>>, winner: nat) returns (won: int)
      requires Views(views, |table|) && Fair(Seen(views, |table|, |table|))
      modifies this`table
      ensures |table| == |old(table)|
      ensures var n := |old(table)|;
              var second := Seen(views, n, n);
              && (won == -1 <==> Tickets(second, n) <= winner)
              && (won != -1 ==> 0 <= won < n && Wins(second, winner, won)
                                && table == views[n + won][won := views[n + won][won]
                                              .(runnable := false, running := true)])
    {
      ghost var second := Seen(views, |table|, |table|);
      var n, counter, p := |table|, 0, 0;
      while p < n
        invariant 0 <= p <= n == |table| && counter == Tickets(second, p) <= winner
      {
        table := views[n + p];
        assert second[p] == table[p];
        if table[p].runnable {
          counter := counter + table[p].ticket;
          if counter > winner {
            TicketsGrow(second, p + 1, n);
            table := table[p := table[p].(runnable := false, running := true)];
            return p;
          }
        }
        p := p + 1;
      }
      won := -1;
    }

    /** A draw that nobody disturbs: it fails only when nothing is RUNNABLE. */
    method DrawAlone(random: nat) returns (won: int)
      requires Fair(table)
      modifies this`table
      ensures won == -1 <==> Tickets(old(table), |old(table)|) == 0
      ensures won == -1 ==> forall i :: 0 <= i < |old(table)| ==> !old(table)[i].runnable
      ensures won != -1 ==> 0 <= won < |old(table)| && old(table)[won].runnable
      ensures won != -1 ==> Wins(old(table), random % 0x8000_0000 % Tickets(old(table), |old(table)|), won)
      ensures won != -1 ==> table == old(table)[won := old(table)[won].(runnable := false, running := true)]
    {
      hide Seen, Tickets;
      StillSeen(table);
      TicketsGrow(table, 0, |table|);
      NobodyRuns(table);
      NoTickets(table);
      won := Draw(random, Still(table));
    }

    /** sys_settickets and settickets. */
    method SetTickets(pid: int, tickets: int) returns (r: int)
      modifies this`table
      ensures r == 0 <==> tickets > 0 && exists i :: 0 <= i < |old(table)| && old(table)[i].pid == pid
      ensures r != 0 ==> r == -1 && table == old(table)
      ensures r == 0 ==> exists i :: 0 <= i < |old(table)| && old(table)[i].pid == pid
                                  && (forall j :: 0 <= j < i ==> old(table)[j].pid != pid)
                                  && table == old(table)[i := old(table)[i].(ticket := tickets)]
      ensures (forall i :: 0 <= i < |old(table)| ==> old(table)[i].ticket > 0) ==>
                forall i :: 0 <= i < |table| ==> table[i].ticket > 0
    {
      if tickets <= 0 {
        return -1;
      }
      var p := 0;
      while p < |table|
        invariant 0 <= p <= |table| && table == old(table) && forall j :: 0 <= j < p ==> table[j].pid != pid
      {
        if table[p].pid == pid {
          table := table[p := table[p].(ticket := tickets)];
          return 0;
        }
        p := p + 1;
      }
      r := -1;
    }
  }

  lemma NobodyRuns(table: seq<Slot>)
    requires Fair(table)
    ensures Tickets(table, |table|) == 0 ==> forall i :: 0 <= i < |table| ==> !table[i].runnable
  {
    forall i | 0 <= i < |table| && Tickets(table, |table|) == 0
      ensures !table[i].runnable
    {
      TicketsGrow(table, i + 1, |table|);
      TicketsGrow(table, 0, i);
    }
  }

  /** Every winning number is held by one process, and by one only. */
  lemma OneWinner(table: seq<Slot>, winner: int) returns (i: nat)
    requires Fair(table) && 0 <= winner < Tickets(table, |table|)
    ensures Wins(table, winner, i) && forall j: nat :: Wins(table, winner, j) ==> j == i
  {
    i := Holder(table, winner, |table|);
    forall j: nat | Wins(table, winner, j)
      ensures j == i
    {
      if j < i {
        TicketsGrow(table, j + 1, i);
      } else if j > i {
        TicketsGrow(table, i + 1, j);
      }
    }
  }

  lemma {:induction false} Holder(table: seq<Slot>, winner: int, k: nat) returns (i: nat)
    requires k <= |table| && 0 <= winner < Tickets(table, k)
    ensures Wins(table, winner, i)
    decreases k
  {
    if winner < Tickets(table, k - 1) {
      i := Holder(table, winner, k - 1);
    } else {
      i := k - 1;
    }
  }

  /** A process wins on as many numbers as it has tickets. */
  lemma NumbersHeld(table: seq<Slot>, i: nat)
    requires Fair(table) && i < |table| && table[i].runnable
    ensures forall winner :: Wins(table, winner, i) <==>
            Tickets(table, i) <= winner < Tickets(table, i) + table[i].ticket
    ensures table[i].ticket > 0 && Tickets(table, i) >= 0
            && Tickets(table, i) + table[i].ticket <= Tickets(table, |table|)
  {
    TicketsGrow(table, 0, i);
    TicketsGrow(table, i + 1, |table|);
  }

  // ----- fairness of the draw

  /** How many of the random values 0 .. n-1 make process i win. */
  function Winning(table: seq<Slot>, i: nat, n: nat): nat
    requires Tickets(table, |table|) > 0
  {
    if n == 0 then 0
    else Winning(table, i, n - 1) + (if Wins(table, (n - 1) % Tickets(table, |table|), i) then 1 else 0)
  }

  function Clamp(x: int, hi: int): int {
    if x < 0 then 0 else if x > hi then hi else x
  }

  lemma DivModStep(n: nat, d: nat)
    requires d > 0
    ensures (n + 1) % d == (if n % d == d - 1 then 0 else n % d + 1)
    ensures (n + 1) / d == (if n % d == d - 1 then n / d + 1 else n / d)
  {
    var q, r := n / d, n % d;
    assert n == q * d + r;
    if r == d - 1 {
      assert n + 1 == (q + 1) * d;
      Quotient(n + 1, d, q + 1, 0);
    } else {
      Quotient(n + 1, d, q, r + 1);
    }
  }

  lemma Quotient(n: nat, d: nat, q: nat, r: nat)
    requires d > 0 && n == q * d + r && r < d
    ensures n / d == q && n % d == r
  {
    var p := n / d;
    assert n == p * d + n % d;
    Apart(p, q, d);
    Apart(q, p, d);
  }

  lemma Apart(p: nat, q: nat, d: nat)
    ensures p < q ==> p * d + d <= q * d
  {
    if p < q {
      Product(q - p, d);
      assert q * d == p * d + (q - p) * d;
    }
  }

  lemma Product(k: nat, d: nat)
    requires k > 0
    ensures k * d >= d
  {
  }

  /** Each full round of the modulus adds one win a ticket. */
  lemma {:induction false} WinningExactly(table: seq<Slot>, i: nat, n: nat)
    requires Fair(table) && i < |table| && table[i].runnable && Tickets(table, |table|) > 0
    ensures var total := Tickets(table, |table|);
            Winning(table, i, n) == n / total * table[i].ticket + Clamp(n % total - Tickets(table, i), table[i].ticket)
    decreases n
  {
    hide Wins, Tickets, Share, Fair;
    var total, t, low := Tickets(table, |table|), table[i].ticket, Tickets(table, i);
    NumbersHeld(table, i);
    if n == 0 {
      Quotient(0, total, 0, 0);
    } else {
      WinningExactly(table, i, n - 1);
      DivModStep(n - 1, total);
      var q, r := (n - 1) / total, (n - 1) % total;
      assert Wins(table, r, i) <==> low <= r < low + t;
      NextRound(q, t);
    }
  }

  lemma NextRound(q: int, t: int)
    ensures (q + 1) * t == q * t + t
  {
  }

  lemma Between(w: int, rounds: int, t: int, rest: int)
    requires w == rounds * t + rest && 0 <= rest <= t
    ensures t * rounds <= w <= t * (rounds + 1)
  {
    assert t * (rounds + 1) == rounds * t + t;
  }

  /** Among all random values, process i wins in proportion to its tickets, up to one
      round of the modulus. */
  lemma LotteryIsFair(table: seq<Slot>, i: nat)
    requires Fair(table) && i < |table| && table[i].runnable
    ensures Tickets(table, |table|) > 0
    ensures var rounds := 0x8000_0000 / Tickets(table, |table|);
            table[i].ticket * rounds <= Winning(table, i, 0x8000_0000) <= table[i].ticket * (rounds + 1)
  {
    hide Tickets, Winning, Wins;
    NumbersHeld(table, i);
    WinningExactly(table, i, RANDOM_VALUES);
    var total, t := Tickets(table, |table|), table[i].ticket;
    Between(Winning(table, i, RANDOM_VALUES), RANDOM_VALUES / total, t,
            Clamp(RANDOM_VALUES % total - Tickets(table, i), t));
  }
}
