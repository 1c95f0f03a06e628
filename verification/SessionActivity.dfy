/** Active time, turns and edits counted from one native session's records. */
module SessionActivity {
  import opened Options

  type Time = int     // milliseconds

  const IDLE_GAP := 30 * 60_000
  const MAX_SAFE_INTEGER := 0x1F_FFFF_FFFF_FFFF

  datatype Record = Seen(time: Time) | TurnStarted | FileEdited

  datatype Activity = Activity(
    first: Option<Time>, last: Option<Time>, active: int, turns: int, edits: int, editing: bool)

  const EMPTY := Activity(None, None, 0, 0, 0, false)

  function Step(a: Activity, record: Record): Activity {
    match record
    case Seen(time) =>
      var widened := if a.first.None? || time < a.first.value then a.(first := Some(time)) else a;
      if a.last.None? then widened.(last := Some(time))
      else
        var gap := time - a.last.value;
        if gap <= 0 then widened
        else widened.(active := if gap <= IDLE_GAP then a.active + gap else a.active, last := Some(time))
    case TurnStarted =>
      a.(edits := if a.editing then a.edits + 1 else a.edits, editing := false, turns := a.turns + 1)
    case FileEdited => a.(editing := true)
  }

  function Continue(a: Activity, records: seq<Record>): Activity {
    if records == [] then a else Step(Continue(a, records[..|records| - 1]), records[|records| - 1])
  }

  /** The counted activity of a session, updated in place record by record. */
  class ActivityCounter {
    var first: Option<Time>
    var last: Option<Time>
    var active: int
    var turns: int
    var edits: int
    var editing: bool

    function State(): Activity
      reads this
    {
      Activity(first, last, active, turns, edits, editing)
    }

    constructor ()
      ensures State() == EMPTY
    {
      first, last, active, turns, edits, editing := None, None, 0, 0, 0, false;
    }

    method RecordActivity(time: Time)
      modifies this`first, this`last, this`active
      ensures State() == Step(old(State()), Seen(time))
    {
      if first.None? || time < first.value {
        first := Some(time);
      }
      if last.Some? {
        var gap := time - last.value;
        if gap > 0 && gap <= IDLE_GAP {
          active := active + gap;
        }
        if gap <= 0 {
          return;
        }
      }
      last := Some(time);
    }

    method StartTurn()
      modifies this`turns, this`edits, this`editing
      ensures State() == Step(old(State()), TurnStarted)
    {
      if editing {
        edits := edits + 1;
      }
      editing := false;
      turns := turns + 1;
    }

    method RecordEdit()
      modifies this`editing
      ensures State() == Step(old(State()), FileEdited)
    {
      editing := true;
    }
  }

  /** Edited turns, the open one included. */
  function Edits(a: Activity): int {
    a.edits + if a.editing then 1 else 0
  }

  // ----- An independent account -----

  function Times(records: seq<Record>): seq<Time> {
    if records == [] then []
    else
      var last := records[|records| - 1];
      Times(records[..|records| - 1]) + if last.Seen? then [last.time] else []
  }

  predicate IsMaximum(times: seq<Time>, t: Time) {
    t in times && forall u | u in times :: u <= t
  }

  predicate IsMinimum(times: seq<Time>, t: Time) {
    t in times && forall u | u in times :: t <= u
  }

  /** The records that set a new maximum, in order. */
  function RunningMaxima(times: seq<Time>): seq<Time> {
    if times == [] then []
    else
      var earlier, t := RunningMaxima(times[..|times| - 1]), times[|times| - 1];
      if earlier == [] || t > earlier[|earlier| - 1] then earlier + [t] else earlier
  }

  /** The sum of the jumps between successive values that are too long to count as activity. */
  function IdleJumps(maxima: seq<Time>): int {
    if |maxima| < 2 then 0
    else
      var jump := maxima[|maxima| - 1] - maxima[|maxima| - 2];
      IdleJumps(maxima[..|maxima| - 1]) + if jump > IDLE_GAP then jump else 0
  }

  function Count(records: seq<Record>, record: Record): nat {
    if records == [] then 0
    else Count(records[..|records| - 1], record) + if records[|records| - 1] == record then 1 else 0
  }

  ghost predicate Accounted(a: Activity, times: seq<Time>) {
    if times == [] then a.first == None && a.last == None && a.active == 0
    else
      var maxima := RunningMaxima(times);
      && a.first.Some? && IsMinimum(times, a.first.value)
      && a.last.Some? && IsMaximum(times, a.last.value)
      && maxima != [] && maxima[0] == times[0] && maxima[|maxima| - 1] == a.last.value
      && a.active + IdleJumps(maxima) == a.last.value - times[0]
      && 0 <= a.active && 0 <= IdleJumps(maxima)
  }

  /** First and last are the extremes of all timestamps, and every millisecond between the first recorded time
      and the last is either active or part of an idle jump. */
  lemma {:induction false} ActiveTimeIsAccounted(records: seq<Record>)
    ensures Accounted(Continue(EMPTY, records), Times(records))
  {
    if records != [] {
      var n := |records| - 1;
      ActiveTimeIsAccounted(records[..n]);
      if records[n].Seen? {
        AccountedStep(Continue(EMPTY, records[..n]), Times(records[..n]), records[n].time);
      } else {
        assert Times(records) == Times(records[..n]);
      }
    }
  }

  lemma AccountedStep(a: Activity, times: seq<Time>, t: Time)
    requires Accounted(a, times)
    ensures Accounted(Step(a, Seen(t)), times + [t])
  {
    var a', longer := Step(a, Seen(t)), times + [t];
    assert longer[..|times|] == times && t in longer;
    assert forall u :: u in longer <==> u in times || u == t;
    var maxima, grown := RunningMaxima(times), RunningMaxima(longer);
    assert IsMinimum(longer, a'.first.value) && IsMaximum(longer, a'.last.value);
    if times != [] && t > a.last.value {
      assert grown == maxima + [t] && grown[..|maxima|] == maxima;
      assert IdleJumps(grown) == IdleJumps(maxima) + if t - a.last.value > IDLE_GAP then t - a.last.value else 0;
    } else if times != [] {
      assert grown == maxima;
    }
  }

  /** Active time never exceeds the span. */
  lemma ActiveTimeWithinSpan(records: seq<Record>)
    ensures
      var a := Continue(EMPTY, records);
      0 <= a.active && (a.first.Some? ==> a.last.Some? && a.active <= a.last.value - a.first.value)
  {
    ActiveTimeIsAccounted(records);
    if Times(records) != [] {
      assert Times(records)[0] in Times(records);
    }
  }

  /** Turns are counted exactly, and edited turns never exceed them by more than the one open at the start. */
  lemma {:induction false} EditedTurnsAreBounded(records: seq<Record>)
    ensures
      var a := Continue(EMPTY, records);
      a.turns == Count(records, TurnStarted) && 0 <= a.edits && a.edits <= a.turns && Edits(a) <= a.turns + 1
  {
    if records != [] {
      EditedTurnsAreBounded(records[..|records| - 1]);
    }
  }

  /** Edited turns are the turns with an edit in them: the stretches between turn starts, whatever came before
      the first one included. */
  function EditedStretches(records: seq<Record>): nat {
    if records == [] then 0
    else
      var before, last := records[..|records| - 1], records[|records| - 1];
      EditedStretches(before) + if last.FileEdited? && !OpenStretchEdited(before) then 1 else 0
  }

  predicate OpenStretchEdited(records: seq<Record>) {
    exists i | 0 <= i < |records| :: records[i].FileEdited? && TurnStarted !in records[i..]
  }

  lemma {:induction false} EditsCountEditedStretches(records: seq<Record>)
    ensures
      var a := Continue(EMPTY, records);
      Edits(a) == EditedStretches(records) && (a.editing <==> OpenStretchEdited(records))
  {
    if records != [] {
      var n := |records| - 1;
      var before := records[..n];
      EditsCountEditedStretches(before);
      forall i | 0 <= i < n
        ensures TurnStarted in records[i..] <==> TurnStarted in before[i..] || records[n] == TurnStarted
      {
        assert records[i..] == before[i..] + [records[n]];
      }
      assert records[n..] == [records[n]];
      assert OpenStretchEdited(records) <==>
        records[n].FileEdited? || (OpenStretchEdited(before) && records[n] != TurnStarted) by {
        if OpenStretchEdited(before) && records[n] != TurnStarted {
          var i :| 0 <= i < n && before[i].FileEdited? && TurnStarted !in before[i..];
          assert records[i].FileEdited? && TurnStarted !in records[i..];
        }
      }
    }
  }

  // ----- Saving in a cursor and continuing from it -----

  predicate SafeCount(n: int) {
    0 <= n <= MAX_SAFE_INTEGER
  }

  /** What a cursor reader makes of saved activity: anything but safe counts is rejected. */
  function Parse(saved: Activity): Option<Activity> {
    if && (saved.first.None? || SafeCount(saved.first.value))
       && (saved.last.None? || SafeCount(saved.last.value))
       && SafeCount(saved.active) && SafeCount(saved.turns) && SafeCount(saved.edits)
    then Some(saved) else None
  }

  lemma {:induction false} ContinueIsIncremental(a: Activity, records: seq<Record>, more: seq<Record>)
    ensures Continue(a, records + more) == Continue(Continue(a, records), more)
  {
    if more == [] {
      assert records + more == records;
    } else {
      var n := |more| - 1;
      assert (records + more)[..|records| + n] == records + more[..n];
      ContinueIsIncremental(a, records, more[..n]);
    }
  }

  /** Saved activity is readable again exactly when its times are safe non-negative integers and its turns fit;
      then reading on from the cursor gives the same totals as one read of everything, wherever it is split. */
  lemma SaveAndContinue(records: seq<Record>, more: seq<Record>)
    ensures
      var parsed := Parse(Continue(EMPTY, records));
      && (parsed.Some? <==>
            (forall t | t in Times(records) :: SafeCount(t)) && Count(records, TurnStarted) <= MAX_SAFE_INTEGER)
      && (parsed.Some? ==> Continue(parsed.value, more) == Continue(EMPTY, records + more))
  {
    ActiveTimeIsAccounted(records);
    ActiveTimeWithinSpan(records);
    EditedTurnsAreBounded(records);
    ContinueIsIncremental(EMPTY, records, more);
  }
}
