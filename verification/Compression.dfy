/** Emergency compression of a session: the older half of its turns goes, whole turns at a time. */
module Compression {
  import opened Messages
  import opened SanitizeLaws
  import opened Budget

  datatype Result = Result(droppedMessages: nat, remainingMessages: nat)

  function Decimal(n: nat): string {
    var digit := ["0", "1", "2", "3", "4", "5", "6", "7", "8", "9"][n % 10];
    if n < 10 then digit else Decimal(n / 10) + digit
  }

  /** The number some decimal digits stand for. */
  function Number(digits: string): int {
    if digits == "" then 0 else 10 * Number(digits[..|digits|-1]) + (digits[|digits|-1] as int - '0' as int)
  }

  lemma {:induction false} DecimalReadsBack(n: nat)
    ensures Number(Decimal(n)) == n && forall c | c in Decimal(n) :: '0' <= c <= '9'
    decreases n
  {
    if n >= 10 {
      DecimalReadsBack(n / 10);
      assert Decimal(n)[..|Decimal(n)|-1] == Decimal(n / 10);
    }
  }

  function CompressionNote(dropped: nat): string {
    "[Emergency compression dropped " + Decimal(dropped) + " oldest messages due to context limit]"
  }

  /**
   * What compression leaves of h. A history with turns keeps the later half of them, rounded up, from a turn start;
   * one that is a single turn keeps its user message; one without turns keeps its later half.
   */
  ghost predicate Compresses(h: seq<Message>, kept: seq<Message>) {
    if Users(h) == 0 then kept == h[|h| / 2..]
    else if Users(h) == 1 && h[0].role == User then kept == [h[0]]
    else exists s :: 0 < s && StartsTurn(h, s) && kept == h[s..] && Users(kept) == (Users(h) + 1) / 2
  }

  class Session {
    var history: seq<Message>
    var summary: string

    method ForceCompression() returns (result: Result, compressed: bool)
      modifies this
      ensures compressed == (|old(history)| > 2)
      ensures !compressed ==> history == old(history) && summary == old(summary)
      ensures compressed ==>
        && Compresses(old(history), history)
        && result.droppedMessages + result.remainingMessages == |old(history)|
        && result.remainingMessages == |history| < |old(history)|
        && summary == (if old(summary) == "" then "" else old(summary) + "\n\n") + CompressionNote(result.droppedMessages)
    {
      if |history| <= 2 { return Result(0, 0), false; }
      var keptHistory := KeepLaterTurns(history);
      CompressionShrinks(history, keptHistory);
      var droppedCount := |history| - |keptHistory|;
      var note := CompressionNote(droppedCount);
      if summary != "" {
        note := summary + "\n\n" + note;
      }
      summary := note;
      history := keptHistory;
      return Result(droppedCount, |keptHistory|), true;
    }
  }

  method KeepLaterTurns(history: seq<Message>) returns (keptHistory: seq<Message>)
    requires |history| > 2
    ensures Compresses(history, keptHistory)
  {
    var turns := ParseTurnBoundaries(history);
    if |turns| >= 2 {
      var mid := turns[|turns| / 2];
      UsersFromTurn(history, turns, |turns| / 2);
      assert turns[0] < mid;
      return history[mid..];
    }
    var mid := FindSafeBoundary(history, |history| / 2);
    if mid > 0 {
      LoneCut(history, mid);
      return history[mid..];
    }
    SingleTurn(history, mid);
    keptHistory := [];
    var i := |history| - 1;
    while i >= 0
      invariant 0 <= i < |history|
      invariant forall k | i < k < |history| :: history[k].role != User
    {
      if history[i].role == User {
        return [history[i]];
      }
      i := i - 1;
    }
  }

  /** A cut at 0 inside a history means that it is one turn. */
  lemma SingleTurn(h: seq<Message>, cut: nat)
    requires |h| > 2 && Users(h) < 2 && IsCutFor(h, |h| / 2, cut) && cut == 0
    ensures Users(h) == 1 && h[0].role == User
    ensures forall i | 0 < i < |h| :: h[i].role != User
  {
    if Users(h) == 1 {
      var s := LaterHalf(h, 1);
      assert s == 0;
      forall i | 0 < i < |h| ensures h[i].role != User {
        assert !StartsTurn(h, i);
      }
    }
  }

  /** A cut of a history with at most one turn. */
  lemma LoneCut(h: seq<Message>, cut: nat)
    requires |h| > 2 && Users(h) < 2 && IsCutFor(h, |h| / 2, cut) && cut > 0
    ensures Compresses(h, h[cut..])
  {
    if Users(h) == 1 {
      LoneTurnIsKept(h, cut);
    }
  }

  lemma OpensWithUser(h: seq<Message>)
    requires h != []
    ensures h[0].role == User ==> Users(h) >= 1
  {
  }

  lemma LoneTurnIsKept(h: seq<Message>, cut: nat)
    requires Users(h) == 1 && 0 < cut < |h| && h[cut].role == User
    ensures Users(h[cut..]) == 1 && h[0].role != User
  {
    assert h == h[..cut] + h[cut..];
    UsersConcat(h[..cut], h[cut..]);
    OpensWithUser(h[cut..]);
    OpensWithUser(h[..cut]);
  }

  /** Any history longer than two messages gets strictly shorter, and at least one message is kept. */
  lemma CompressionShrinks(h: seq<Message>, kept: seq<Message>)
    requires |h| > 2 && Compresses(h, kept)
    ensures 0 < |kept| < |h|
    ensures Users(h) > 0 ==> kept[0].role == User && Users(kept) == (Users(h) + 1) / 2
  {
    if Users(h) > 0 && !(Users(h) == 1 && h[0].role == User) {
      var s :| 0 < s && StartsTurn(h, s) && kept == h[s..] && Users(kept) == (Users(h) + 1) / 2;
    }
  }

  /** Two turns of one history that leave equally many users are the same turn. */
  lemma TurnByCount(h: seq<Message>, s: nat, t: nat)
    requires StartsTurn(h, s) && StartsTurn(h, t) && s < t
    ensures Users(h[t..]) < Users(h[s..])
  {
    assert h[s..] == h[s..t] + h[t..];
    UsersConcat(h[s..t], h[t..]);
    assert h[s..t][0] in h[s..t];
    NoUsers(h[s..t]);
  }

  /** What is kept is determined by the history. */
  lemma CompressionIsUnique(h: seq<Message>, kept: seq<Message>, other: seq<Message>)
    requires |h| > 2 && Compresses(h, kept) && Compresses(h, other)
    ensures kept == other
  {
    if Users(h) > 0 && !(Users(h) == 1 && h[0].role == User) {
      var s :| 0 < s && StartsTurn(h, s) && kept == h[s..] && Users(kept) == (Users(h) + 1) / 2;
      var t :| 0 < t && StartsTurn(h, t) && other == h[t..] && Users(other) == (Users(h) + 1) / 2;
      if s < t {
        TurnByCount(h, s, t);
      } else if t < s {
        TurnByCount(h, t, s);
      }
    }
  }

  /** A well-formed history without users holds no tool machinery at all. */
  lemma {:induction false} NoUsersNoTools(h: seq<Message>, n: nat)
    requires WellFormed(h) && Users(h) == 0 && n <= |h|
    ensures forall i | 0 <= i < n :: h[i].Plain()
  {
    if n > 0 {
      NoUsersNoTools(h, n - 1);
      NoUsers(h);
      assert WellPlaced(h, n - 1) && h[n-1] in h;
      assert n > 1 ==> h[n-2] in h;
    }
  }

  lemma PlainIsWellFormed(h: seq<Message>)
    requires forall m | m in h :: m.Plain()
    ensures WellFormed(h)
  {
    forall i | 0 <= i < |h| ensures WellPlaced(h, i) {
      assert h[i] in h;
    }
  }

  lemma CompressionKeepsWellFormed(h: seq<Message>, kept: seq<Message>)
    requires |h| > 2 && WellFormed(h) && Compresses(h, kept)
    ensures WellFormed(kept)
  {
    if Users(h) == 0 {
      NoUsersNoTools(h, |h|);
      PlainIsWellFormed(kept);
    } else if Users(h) == 1 && h[0].role == User {
      PlainIsWellFormed(kept);
    } else {
      var s :| 0 < s && StartsTurn(h, s) && kept == h[s..] && Users(kept) == (Users(h) + 1) / 2;
      WellFormedSplitsAtTurns(h, s);
    }
  }

  /** Successive histories, each the compression of the one before. */
  ghost predicate CompressionRun(run: seq<seq<Message>>) {
    var n := |run| - 1;
    n == 0 || (n > 0 && CompressionRun(run[..n]) && |run[n-1]| > 2 && Compresses(run[n-1], run[n]))
  }

  /** Compressing again and again ends, within as many steps as there are messages, and keeps well-formedness. */
  lemma {:induction false} CompressionRunsEnd(run: seq<seq<Message>>)
    requires CompressionRun(run)
    ensures |run| > 1 ==> |run| < |run[0]|
    ensures |run[|run|-1]| + |run| - 1 <= |run[0]|
    ensures WellFormed(run[0]) ==> WellFormed(run[|run|-1])
    decreases |run|
  {
    var n := |run| - 1;
    if n > 0 {
      CompressionRunsEnd(run[..n]);
      CompressionShrinks(run[n-1], run[n]);
      if WellFormed(run[0]) {
        CompressionKeepsWellFormed(run[n-1], run[n]);
      }
    }
  }

  /** A history longer than two messages can always be compressed, so a run that cannot go on has reached two. */
  lemma CompressionGoesOn(h: seq<Message>) returns (kept: seq<Message>)
    requires |h| > 2
    ensures Compresses(h, kept)
  {
    if Users(h) == 0 {
      kept := h[|h| / 2..];
    } else if Users(h) == 1 && h[0].role == User {
      kept := [h[0]];
    } else {
      var s := LaterHalf(h, (Users(h) + 1) / 2);
      kept := h[s..];
      assert h[0..] == h;
    }
  }

  lemma {:induction false} LaterHalf(h: seq<Message>, n: nat) returns (s: nat)
    requires 0 < n <= Users(h)
    ensures StartsTurn(h, s) && Users(h[s..]) == n
    decreases |h|
  {
    if h[0].role == User && Users(h) == n {
      s := 0;
      assert h[0..] == h;
    } else {
      s := LaterHalf(h[1..], n);
      assert h[1..][s..] == h[s+1..];
      s := s + 1;
    }
  }
}
