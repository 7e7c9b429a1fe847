/**
 * The winners feed: a list of the most recent winners, capped at ten, a
 * highlighted new winner shown for two seconds before it joins the list, and
 * "time ago" labels.
 */
module Winners {
  import opened Wrappers
  import opened Text
  import Arith

  /** A winner; `timestamp` is the ISO time already read as epoch milliseconds. */
  datatype Winner = Winner(id: string, address: string, prize: real, timestamp: int, txHash: string)

  const MaxWinners: nat := 10

  function Min(a: int, b: int): int {
    if a <= b then a else b
  }

  /** `[w, ...prev.slice(0, 9)]`: the new winner first, then the nine most recent. */
  function PrependCapped(w: Winner, prev: seq<Winner>): (r: seq<Winner>)
    ensures |r| == Min(|prev| + 1, MaxWinners)
    ensures r[0] == w
    ensures forall i :: 1 <= i < |r| ==> r[i] == prev[i - 1]
  {
    [w] + prev[..Min(9, |prev|)]
  }

  /** Settling winners one after another, first to last. */
  function SettleAll(ws: seq<Winner>, list: seq<Winner>): seq<Winner>
    decreases |ws|
  {
    if ws == [] then list else SettleAll(ws[1..], PrependCapped(ws[0], list))
  }

  function Reverse(ws: seq<Winner>): (r: seq<Winner>)
    ensures |r| == |ws|
    ensures forall i :: 0 <= i < |ws| ==> r[i] == ws[|ws| - 1 - i]
  {
    if ws == [] then [] else Reverse(ws[1..]) + [ws[0]]
  }

  /**
   * The feed always holds the most recent winners, newest first: after settling
   * `ws` onto `list` it is the first ten of (ws newest-first) followed by `list`.
   */
  lemma {:induction false} SettleAllKeepsNewest(ws: seq<Winner>, list: seq<Winner>)
    requires |list| <= MaxWinners
    ensures SettleAll(ws, list) == (Reverse(ws) + list)[..Min(|ws| + |list|, MaxWinners)]
    decreases |ws|
  {
    if ws != [] {
      var next := PrependCapped(ws[0], list);
      SettleAllKeepsNewest(ws[1..], next);
      var full := Reverse(ws) + list;
      var tail := Reverse(ws[1..]) + next;
      var n := Min(|ws| + |list|, MaxWinners);
      assert Min(|ws[1..]| + |next|, MaxWinners) == n;
      forall i | 0 <= i < n
        ensures tail[i] == full[i]
      {
        if i >= |ws| - 1 && i - (|ws| - 1) >= 1 {
          assert tail[i] == next[i - (|ws| - 1)] == list[i - |ws|];
        }
      }
      assert tail[..n] == full[..n];
    }
  }

  /** The five winners the feed is seeded with, newest first. */
  const MockWinners: seq<Winner> := [
    Winner("1", "AU12abc...def456", 125.5, 1705073400000, "0x123...abc"),
    Winner("2", "AU34ghi...jkl789", 89.2, 1705004100000, "0x456...def"),
    Winner("3", "AU56mno...pqr012", 234.8, 1704897900000, "0x789...ghi"),
    Winner("4", "AU78stu...vwx345", 67.3, 1704799200000, "0xabc...123"),
    Winner("5", "AU90yza...bcd678", 156.7, 1704730200000, "0xdef...456")
  ]

  /** The mock list is short enough for the feed and ordered newest first. */
  lemma MockWinnersNewestFirst()
    ensures |MockWinners| <= MaxWinners
    ensures forall i, j :: 0 <= i < j < |MockWinners| ==> MockWinners[j].timestamp < MockWinners[i].timestamp
  {
  }

  class WinnersFeed {
    var winners: seq<Winner>
    var newWinner: Option<Winner>

    ghost predicate Valid()
      reads this
    {
      |winners| <= MaxWinners
    }

    /** The feed starts with the five mock winners and nothing highlighted. */
    constructor()
      ensures winners == MockWinners && newWinner == None
      ensures Valid()
    {
      winners := MockWinners;
      newWinner := None;
    }

    /** A tick that drew a winner: it is shown as the new winner; the list is untouched. */
    method Announce(w: Winner)
      modifies this
      ensures newWinner == Some(w) && winners == old(winners)
    {
      newWinner := Some(w);
    }

    /** Two seconds later: the winner joins the head of the list and the highlight is cleared. */
    method Settle(w: Winner)
      modifies this
      ensures winners == PrependCapped(w, old(winners))
      ensures newWinner == None
      ensures Valid()
    {
      winners := [w] + winners[..Min(9, |winners|)];
      newWinner := None;
    }
  }

  // ---------------------------------------------------------------------------
  // "time ago"

  datatype Ago = JustNow | MinutesAgo(minutes: nat) | HoursAgo(hours: nat) | DaysAgo(days: nat)

  /**
   * `formatTimeAgo`'s buckets on m = floor((now - time) / 60000). The bucket
   * brackets the elapsed time; a time in the future is "just now".
   */
  function TimeAgo(now: int, time: int): (r: Ago)
    ensures r.JustNow? <==> now - time < 60000
    ensures r.MinutesAgo? ==> 1 <= r.minutes < 60
                              && r.minutes * 60000 <= now - time < (r.minutes + 1) * 60000
    ensures r.HoursAgo? ==> 1 <= r.hours <= 23
                            && r.hours * 3600000 <= now - time < (r.hours + 1) * 3600000
    ensures r.DaysAgo? ==> r.days >= 1 && r.days * 86400000 <= now - time < (r.days + 1) * 86400000
  {
    var m := (now - time) / 60000;
    if m < 1 then JustNow
    else if m < 60 then MinutesAgo(m)
    else if m < 1440 then
      Arith.DivDiv(now - time, 60000, 60);
      HoursAgo(m / 60)
    else
      Arith.DivDiv(now - time, 60000, 1440);
      DaysAgo(m / 1440)
  }

  function AgoText(a: Ago): string {
    match a
    case JustNow => "Just now"
    case MinutesAgo(m) => DecimalString(m) + "m ago"
    case HoursAgo(h) => DecimalString(h) + "h ago"
    case DaysAgo(d) => DecimalString(d) + "d ago"
  }

  /** `formatTimeAgo` as displayed. */
  function FormatTimeAgo(now: int, time: int): string {
    AgoText(TimeAgo(now, time))
  }

  /**
   * Distinct buckets print differently: the label gives back the bucket and its
   * count, since a number is followed by its unit letter and " ago".
   */
  lemma {:induction false} AgoTextInjective(a: Ago, b: Ago)
    requires AgoText(a) == AgoText(b)
    ensures a == b
  {
    var t := AgoText(a);
    if a.JustNow? || b.JustNow? {
      assert t[0] == 'J';
      assert !IsDigit('J');
    } else {
      var n := |t| - 5;
      assert t[n] == UnitOf(a) == UnitOf(b);
      assert t[..n] == DecimalString(CountOf(a)) == DecimalString(CountOf(b));
      DecimalStringInjective(CountOf(a), CountOf(b));
    }
  }

  /** The unit letter of a bucket that shows a number. */
  function UnitOf(a: Ago): char
    requires !a.JustNow?
  {
    match a
    case MinutesAgo(_) => 'm'
    case HoursAgo(_) => 'h'
    case DaysAgo(_) => 'd'
  }

  /** The number a bucket shows, when it shows one. */
  function CountOf(a: Ago): nat
    requires !a.JustNow?
  {
    match a
    case MinutesAgo(m) => m
    case HoursAgo(h) => h
    case DaysAgo(d) => d
  }

  /** "Just now" is shown exactly when less than a minute has passed. */
  lemma FormatTimeAgoJustNow(now: int, time: int)
    ensures FormatTimeAgo(now, time) == "Just now" <==> now - time < 60000
  {
    if FormatTimeAgo(now, time) == "Just now" {
      AgoTextInjective(TimeAgo(now, time), JustNow);
    }
  }

  /** The order of the buckets, from the freshest label to the oldest. */
  function Rank(a: Ago): nat {
    match a
    case JustNow => 0
    case MinutesAgo(_) => 1
    case HoursAgo(_) => 2
    case DaysAgo(_) => 3
  }

  /** The number a bucket shows (none for "just now"). */
  function Count(a: Ago): nat {
    match a
    case JustNow => 0
    case MinutesAgo(m) => m
    case HoursAgo(h) => h
    case DaysAgo(d) => d
  }

  /**
   * A later clock never shows a fresher label for the same timestamp: the bucket
   * never moves back, and within one bucket the count never decreases.
   */
  lemma TimeAgoMonotone(now1: int, now2: int, time: int)
    requires now1 <= now2
    ensures Rank(TimeAgo(now1, time)) <= Rank(TimeAgo(now2, time))
    ensures Rank(TimeAgo(now1, time)) == Rank(TimeAgo(now2, time)) ==>
              Count(TimeAgo(now1, time)) <= Count(TimeAgo(now2, time))
  {
    var a1, a2 := TimeAgo(now1, time), TimeAgo(now2, time);
    if Rank(a1) == Rank(a2) && !a1.JustNow? {
      var d1, d2 := now1 - time, now2 - time;
      Arith.DivMono(d1, d2, 60000);
      var m1, m2 := d1 / 60000, d2 / 60000;
      if a1.HoursAgo? {
        Arith.DivMono(m1, m2, 60);
      } else if a1.DaysAgo? {
        Arith.DivMono(m1, m2, 1440);
      }
    }
  }
}
