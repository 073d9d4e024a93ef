/**
  The live query-log panel (components/LogsViewer.tsx): a newest-first buffer
  of at most MaxLogs records that grows by one record per tick, a Clear button,
  and a table that shows the records whose domain contains the filter text,
  ignoring case.
 */
module LogsViewer {
  import opened Types

  /** How many records the panel keeps. */
  const MaxLogs: nat := 50

  // ---------------------------------------------------------------------------
  // The buffer update
  // ---------------------------------------------------------------------------

  /** JavaScript's `slice(0, n)`: the first n elements, or all of them when there are fewer. */
  function Take<T>(s: seq<T>, n: nat): (r: seq<T>)
    ensures |r| == if |s| < n then |s| else n
    ensures r == s[..|r|]
  {
    if |s| <= n then s else s[..n]
  }

  /** The buffer after one tick: the new record in front of the previous ones, cut to MaxLogs. */
  function Ticked(prev: seq<QueryLog>, newLog: QueryLog): (next: seq<QueryLog>)
    ensures |next| == if |prev| + 1 < MaxLogs then |prev| + 1 else MaxLogs
    ensures next[0] == newLog
    ensures next[1..] == prev[..|next| - 1]
  {
    Take([newLog] + prev, MaxLogs)
  }

  /** On a full buffer a tick drops exactly the oldest (last) record. */
  lemma TickOnFullBufferDropsOldest(prev: seq<QueryLog>, newLog: QueryLog)
    requires |prev| == MaxLogs
    ensures Ticked(prev, newLog) == [newLog] + prev[..MaxLogs - 1]
    ensures |Ticked(prev, newLog)| == |prev|
  {
  }

  /** The buffer after a run of ticks, `arrivals[0]` arriving first. */
  function Ticks(prev: seq<QueryLog>, arrivals: seq<QueryLog>): seq<QueryLog>
    decreases |arrivals|
  {
    if arrivals == [] then prev else Ticks(Ticked(prev, arrivals[0]), arrivals[1..])
  }

  /** The elements of a sequence in the opposite order. */
  function Reversed<T>(s: seq<T>): (r: seq<T>)
    ensures |r| == |s|
  {
    if s == [] then [] else Reversed(s[1..]) + [s[0]]
  }

  /** Reversing a sequence with one more element at the end puts that element in front. */
  lemma {:induction false} ReversedSnoc<T>(s: seq<T>, x: T)
    ensures Reversed(s + [x]) == [x] + Reversed(s)
  {
    if s != [] {
      assert (s + [x])[1..] == s[1..] + [x];
      ReversedSnoc(s[1..], x);
    }
  }

  /** Cutting a tail before prepending and cutting afterwards keep the same prefix. */
  lemma TakeAfterPrepend<T>(front: seq<T>, s: seq<T>, n: nat)
    ensures Take(front + Take(s, n), n) == Take(front + s, n)
  {
  }

  /**
    Whatever the buffer held, once it is within bounds it always shows the
    most recent MaxLogs records, newest first, followed by older ones.
   */
  lemma {:induction false} TicksKeepNewest(prev: seq<QueryLog>, arrivals: seq<QueryLog>)
    requires |prev| <= MaxLogs
    ensures Ticks(prev, arrivals) == Take(Reversed(arrivals) + prev, MaxLogs)
    decreases |arrivals|
  {
    if arrivals != [] {
      var x, rest := arrivals[0], arrivals[1..];
      var once := Ticked(prev, x);
      TicksKeepNewest(once, rest);
      calc {
        Ticks(prev, arrivals);
        Take(Reversed(rest) + once, MaxLogs);
        { TakeAfterPrepend(Reversed(rest), [x] + prev, MaxLogs); }
        Take(Reversed(rest) + ([x] + prev), MaxLogs);
        { assert Reversed(rest) + ([x] + prev) == Reversed(arrivals) + prev; }
        Take(Reversed(arrivals) + prev, MaxLogs);
      }
    }
  }

  // ---------------------------------------------------------------------------
  // The domain filter
  // ---------------------------------------------------------------------------

  /** `toLowerCase` on one character, for the ASCII letters. */
  function LowerChar(c: char): char
  {
    if 'A' <= c <= 'Z' then (c as int + 32) as char else c
  }

  predicate IsLower(s: string)
  {
    forall i :: 0 <= i < |s| ==> !('A' <= s[i] <= 'Z')
  }

  /** `toLowerCase`: no upper-case letter is left, and each character is the old one lowered. */
  function ToLower(s: string): (r: string)
    ensures |r| == |s|
    ensures forall i :: 0 <= i < |s| ==> r[i] == LowerChar(s[i])
    ensures IsLower(r)
  {
    if s == [] then [] else [LowerChar(s[0])] + ToLower(s[1..])
  }

  /** Lowering twice is lowering once. */
  lemma ToLowerIdempotent(s: string)
    ensures ToLower(ToLower(s)) == ToLower(s)
  {
  }

  /** `sub` occurs in `s` starting at index i. */
  ghost predicate OccursAt(s: string, sub: string, i: int)
  {
    0 <= i && i + |sub| <= |s| && s[i..i + |sub|] == sub
  }

  /** An occurrence after the first character is an occurrence in the tail. */
  lemma OccursAtShift(s: string, sub: string, i: int)
    requires s != [] && !OccursAt(s, sub, 0)
    ensures OccursAt(s, sub, i) <==> OccursAt(s[1..], sub, i - 1)
  {
  }

  /** String `includes`: whether `sub` occurs somewhere in `s`. */
  function Includes(s: string, sub: string): (b: bool)
    ensures b <==> exists i :: OccursAt(s, sub, i)
    decreases |s|
  {
    if |sub| > |s| then
      false
    else if s[..|sub|] == sub then
      assert OccursAt(s, sub, 0);
      true
    else
      assert !OccursAt(s, sub, 0);
      assert forall i :: OccursAt(s, sub, i) ==> OccursAt(s[1..], sub, i - 1) by {
        forall i ensures OccursAt(s, sub, i) ==> OccursAt(s[1..], sub, i - 1) {
          OccursAtShift(s, sub, i);
        }
      }
      assert forall j :: OccursAt(s[1..], sub, j) ==> OccursAt(s, sub, j + 1) by {
        forall j ensures OccursAt(s[1..], sub, j) ==> OccursAt(s, sub, j + 1) {
          OccursAtShift(s, sub, j + 1);
        }
      }
      Includes(s[1..], sub)
  }

  /** Lowering a slice is slicing the lowered text. */
  lemma {:induction false} ToLowerSlice(s: string, i: nat, j: nat)
    requires i <= j <= |s|
    ensures ToLower(s)[i..j] == ToLower(s[i..j])
  {
    var lower := ToLower(s);
    var lhs, rhs := lower[i..j], ToLower(s[i..j]);
    assert |lhs| == j - i == |rhs|;
    forall k | 0 <= k < j - i ensures lhs[k] == rhs[k] {
      assert lhs[k] == lower[i + k] == LowerChar(s[i + k]);
      assert rhs[k] == LowerChar(s[i..j][k]);
    }
  }

  /** The filter text equals, ignoring case, the part of the domain that starts at index i. */
  ghost predicate MatchesAt(domain: string, filter: string, i: int)
  {
    0 <= i && i + |filter| <= |domain| && ToLower(domain[i..i + |filter|]) == ToLower(filter)
  }

  /** The row test of the table: some part of the domain equals the filter, ignoring case. */
  function Matches(log: QueryLog, filter: string): (b: bool)
    ensures b <==> exists i :: MatchesAt(log.domain, filter, i)
  {
    var domain, text := ToLower(log.domain), ToLower(filter);
    assert forall i :: OccursAt(domain, text, i) <==> MatchesAt(log.domain, filter, i) by {
      forall i ensures OccursAt(domain, text, i) <==> MatchesAt(log.domain, filter, i) {
        if 0 <= i && i + |filter| <= |log.domain| {
          ToLowerSlice(log.domain, i, i + |filter|);
        }
      }
    }
    Includes(domain, text)
  }

  /** `logs.filter(...)`: the records that match, in buffer order. */
  function Visible(logs: seq<QueryLog>, filter: string): (shown: seq<QueryLog>)
    ensures |shown| <= |logs|
    ensures forall l :: l in shown <==> l in logs && Matches(l, filter)
  {
    if logs == [] then []
    else
      var rest := Visible(logs[1..], filter);
      assert forall l :: l in logs <==> l == logs[0] || l in logs[1..];
      if Matches(logs[0], filter) then [logs[0]] + rest else rest
  }

  /** The filter works record by record: it neither adds nor reorders records. */
  lemma {:induction false} VisibleDistributes(a: seq<QueryLog>, b: seq<QueryLog>, filter: string)
    ensures Visible(a + b, filter) == Visible(a, filter) + Visible(b, filter)
    decreases |a|
  {
    if a == [] {
      assert a + b == b;
    } else {
      assert (a + b)[1..] == a[1..] + b;
      VisibleDistributes(a[1..], b, filter);
    }
  }

  /** A single record is shown exactly when it matches. */
  lemma VisibleSingle(l: QueryLog, filter: string)
    ensures Visible([l], filter) == if Matches(l, filter) then [l] else []
  {
  }

  /** An empty filter shows the whole buffer. */
  lemma {:induction false} EmptyFilterShowsAll(logs: seq<QueryLog>)
    ensures Visible(logs, "") == logs
  {
    if logs != [] {
      assert OccursAt(ToLower(logs[0].domain), ToLower(""), 0);
      EmptyFilterShowsAll(logs[1..]);
    }
  }

  /** Filters that differ only in letter case show the same rows. */
  lemma {:induction false} FilterIgnoresCase(logs: seq<QueryLog>, f: string, g: string)
    requires ToLower(f) == ToLower(g)
    ensures Visible(logs, f) == Visible(logs, g)
  {
    if logs != [] {
      FilterIgnoresCase(logs[1..], f, g);
    }
  }

  /** In particular a filter shows the same rows as its lower-case form. */
  lemma FilterAsLowerCase(logs: seq<QueryLog>, f: string)
    ensures Visible(logs, f) == Visible(logs, ToLower(f))
  {
    ToLowerIdempotent(f);
    FilterIgnoresCase(logs, f, ToLower(f));
  }

  // ---------------------------------------------------------------------------
  // Rendering
  // ---------------------------------------------------------------------------

  const BlockedStyle: string := "text-pink-500 bg-pink-500/10 border-pink-500/20"
  const CachedStyle: string := "text-indigo-400 bg-indigo-400/10 border-indigo-400/20"
  const LocalStyle: string := "text-emerald-400 bg-emerald-400/10 border-emerald-400/20"
  const DefaultStyle: string := "text-slate-400 bg-slate-800 border-slate-700"

  /**
    `getStatusStyle`: Blocked, Cached and Local each get a class string of their
    own; every other status text, Forwarded among them, gets the default.
   */
  function StatusStyle(status: string): (style: string)
    ensures style == BlockedStyle <==> status == "Blocked"
    ensures style == CachedStyle <==> status == "Cached"
    ensures style == LocalStyle <==> status == "Local"
    ensures style == DefaultStyle <==> status !in {"Blocked", "Cached", "Local"}
  {
    match status
    case "Blocked" => BlockedStyle
    case "Cached" => CachedStyle
    case "Local" => LocalStyle
    case _ => DefaultStyle
  }

  /** The Forwarded status is shown with the default style. */
  lemma ForwardedGetsDefault()
    ensures StatusStyle(StatusName(Forwarded)) == DefaultStyle
  {
  }

  /** Over the four statuses the style tells the status apart. */
  lemma StatusStyleSeparates(s: Status, t: Status)
    ensures StatusStyle(StatusName(s)) == StatusStyle(StatusName(t)) <==> s == t
  {
  }

  /** One row of the table body. */
  datatype Row = LogRow(log: QueryLog, style: string) | WaitingRow

  /**
    The table body: one row per visible record, styled by its status, then the
    "waiting" row, which appears exactly when the buffer itself is empty.
   */
  function Rows(logs: seq<QueryLog>, filter: string): (rows: seq<Row>)
    ensures |rows| == |Visible(logs, filter)| + (if logs == [] then 1 else 0)
    ensures WaitingRow in rows <==> logs == []
    ensures forall i :: 0 <= i < |Visible(logs, filter)| ==>
      rows[i].LogRow? && Matches(rows[i].log, filter) && rows[i].log == Visible(logs, filter)[i] &&
      rows[i].style == StatusStyle(StatusName(rows[i].log.status))
  {
    var shown := Visible(logs, filter);
    var logRows := seq(|shown|, i requires 0 <= i < |shown| => LogRow(shown[i], StatusStyle(StatusName(shown[i].status))));
    assert forall i :: 0 <= i < |shown| ==> shown[i] in shown;
    logRows + (if logs == [] then [WaitingRow] else [])
  }

  // ---------------------------------------------------------------------------
  // The component's state
  // ---------------------------------------------------------------------------

  /**
    The `logs` and `filter` state of the panel. The ghost field Arrivals holds
    every record that arrived since mounting or the last Clear, oldest first.
   */
  class Viewer {
    var logs: seq<QueryLog>
    var filter: string
    ghost var Arrivals: seq<QueryLog>

    /**
      The buffer holds the MaxLogs most recent arrivals (or all of them when
      there are fewer), newest first.
     */
    ghost predicate Valid()
      reads this
    {
      |logs| <= MaxLogs &&
      logs == Take(Reversed(Arrivals), MaxLogs)
    }

    /** Mounting: an empty buffer and an empty filter. */
    constructor ()
      ensures Valid()
      ensures logs == [] && filter == "" && Arrivals == []
    {
      logs := [];
      filter := "";
      Arrivals := [];
    }

    /** One interval tick, with the synthesised record as a parameter. */
    method Tick(newLog: QueryLog)
      requires Valid()
      modifies this`logs, this`Arrivals
      ensures Valid()
      ensures Arrivals == old(Arrivals) + [newLog]
      ensures logs == Ticked(old(logs), newLog)
      ensures logs[0] == newLog
      ensures |logs| == if |old(logs)| + 1 < MaxLogs then |old(logs)| + 1 else MaxLogs
    {
      ReversedSnoc(Arrivals, newLog);
      TakeAfterPrepend([newLog], Reversed(Arrivals), MaxLogs);
      logs := Take([newLog] + logs, MaxLogs);
      Arrivals := Arrivals + [newLog];
    }

    /** The Clear button: the buffer is empty whatever it held. */
    method Clear()
      modifies this`logs, this`Arrivals
      ensures Valid()
      ensures logs == [] && Arrivals == []
    {
      logs := [];
      Arrivals := [];
    }

    /** Typing in the filter box; the buffer is untouched. */
    method SetFilter(value: string)
      modifies this`filter
      ensures filter == value
    {
      filter := value;
    }
  }
}
