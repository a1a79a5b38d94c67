/** The Profiler of profiler.h: a stack of entered functions with their entry
    times, a table of total time and call count per function, and the string
    helpers its report uses. Times are the unsigned 64-bit tick counts that
    GetTime returns, passed in as parameters. */
module Profiler {
  import opened Text

  const TwoTo64: nat := 0x1_0000_0000_0000_0000
  type U64 = x: int | 0 <= x < 0x1_0000_0000_0000_0000

  /** An entered function: its name and the time it was entered. */
  datatype Frame = Frame(name: string, entryTime: U64)

  /** Per-function totals: time spent (unsigned long long) and calls. */
  datatype Tally = Tally(totalTime: U64, calls: nat)

  /** The entry std::unordered_map::operator[] creates for a missing name. */
  const NoTally := Tally(0, 0)

  function TallyOf(frequencies: map<string, Tally>, name: string): Tally {
    if name in frequencies then frequencies[name] else NoTally
  }

  /** total + now - entry in unsigned long long arithmetic. */
  function AddElapsed(total: U64, now: U64, entry: U64): (r: U64)
    ensures entry <= now && total + (now - entry) < TwoTo64 ==> r == total + (now - entry)
    ensures (r - (total + now - entry)) % TwoTo64 == 0
  {
    (total + now - entry) % TwoTo64
  }

  /** The two static members Enter and Exit change. */
  datatype ProfilerState = ProfilerState(entryTimes: seq<Frame>, frequencies: map<string, Tally>)

  const Idle := ProfilerState([], map[])

  function EnterStep(s: ProfilerState, name: string, now: U64): (r: ProfilerState)
    ensures |r.entryTimes| == |s.entryTimes| + 1
    ensures r.entryTimes[|s.entryTimes|] == Frame(name, now) && r.entryTimes[..|s.entryTimes|] == s.entryTimes
    ensures r.frequencies == s.frequencies
  {
    ProfilerState(s.entryTimes + [Frame(name, now)], s.frequencies)
  }

  /** Exit's assertion: the innermost entered function is the one leaving. */
  predicate CanExit(s: ProfilerState, name: string) {
    s.entryTimes != [] && s.entryTimes[|s.entryTimes| - 1].name == name
  }

  /** Exit pops the innermost frame and charges its elapsed time and one call
      to the leaving function; every other function's tally is unchanged. */
  function ExitStep(s: ProfilerState, name: string, now: U64): (r: ProfilerState)
    requires CanExit(s, name)
    ensures r.entryTimes == s.entryTimes[..|s.entryTimes| - 1]
    ensures TallyOf(r.frequencies, name).calls == TallyOf(s.frequencies, name).calls + 1
    ensures TallyOf(r.frequencies, name).totalTime
         == AddElapsed(TallyOf(s.frequencies, name).totalTime, now, s.entryTimes[|s.entryTimes| - 1].entryTime)
    ensures forall other :: other != name ==> TallyOf(r.frequencies, other) == TallyOf(s.frequencies, other)
    ensures r.frequencies.Keys == s.frequencies.Keys + {name}
  {
    var top := s.entryTimes[|s.entryTimes| - 1];
    var old_ := TallyOf(s.frequencies, name);
    ProfilerState(s.entryTimes[..|s.entryTimes| - 1],
                  s.frequencies[name := Tally(AddElapsed(old_.totalTime, now, top.entryTime), old_.calls + 1)])
  }

  datatype Event = Entered(name: string, time: U64) | Exited(name: string, time: U64)

  /** One Enter or Exit; None where Exit's assertion fails. */
  function Step(s: ProfilerState, e: Event): Option<ProfilerState> {
    match e
    case Entered(name, time) => Some(EnterStep(s, name, time))
    case Exited(name, time) => if CanExit(s, name) then Some(ExitStep(s, name, time)) else None
  }

  /** A sequence of Enter and Exit calls in order. */
  function Run(s: ProfilerState, events: seq<Event>): Option<ProfilerState>
    decreases |events|
  {
    if events == [] then Some(s)
    else
      match Step(s, events[0])
      case None => None
      case Some(next) => Run(next, events[1..])
  }

  function Enters(events: seq<Event>): nat {
    if events == [] then 0 else (if events[0].Entered? then 1 else 0) + Enters(events[1..])
  }

  function ExitsOf(events: seq<Event>, name: string): nat {
    if events == [] then 0
    else (if events[0] == Exited(name, events[0].time) then 1 else 0) + ExitsOf(events[1..], name)
  }

  function Exits(events: seq<Event>): nat {
    if events == [] then 0 else (if events[0].Exited? then 1 else 0) + Exits(events[1..])
  }

  /** Every Enter pushes one frame and every Exit pops one. */
  lemma {:induction false} RunDepth(s: ProfilerState, events: seq<Event>)
    requires Run(s, events).Some?
    ensures |Run(s, events).value.entryTimes| + Exits(events) == |s.entryTimes| + Enters(events)
    decreases |events|
  {
    if events != [] {
      RunDepth(Step(s, events[0]).value, events[1..]);
    }
  }

  /** A function's call count grows by exactly its number of Exits. */
  lemma {:induction false} RunCalls(s: ProfilerState, events: seq<Event>, name: string)
    requires Run(s, events).Some?
    ensures TallyOf(Run(s, events).value.frequencies, name).calls
         == TallyOf(s.frequencies, name).calls + ExitsOf(events, name)
    decreases |events|
  {
    if events != [] {
      RunCalls(Step(s, events[0]).value, events[1..], name);
    }
  }

  /** From an idle profiler, as many Exits as Enters leave the stack empty,
      and each function has been counted once per Exit. */
  lemma BalancedRunEndsIdle(events: seq<Event>, name: string)
    requires Run(Idle, events).Some?
    requires Enters(events) == Exits(events)
    ensures Run(Idle, events).value.entryTimes == []
    ensures TallyOf(Run(Idle, events).value.frequencies, name).calls == ExitsOf(events, name)
  {
    RunDepth(Idle, events);
    RunCalls(Idle, events, name);
  }

  lemma {:induction false} RunAppend(s: ProfilerState, a: seq<Event>, b: seq<Event>)
    ensures Run(s, a + b) == match Run(s, a) case None => None case Some(m) => Run(m, b)
    decreases |a|
  {
    if a == [] {
      assert a + b == b;
    } else {
      assert (a + b)[0] == a[0] && (a + b)[1..] == a[1..] + b;
      match Step(s, a[0])
      case None =>
      case Some(next) => RunAppend(next, a[1..], b);
    }
  }

  /** A ProfilerHelper scope: Enter, a body that leaves the stack as it found
      it, then Exit of the same function. The Exit's assertion holds, the
      stack returns to where it was and the function gains one call. */
  lemma ScopedCall(s: ProfilerState, name: string, t0: U64, body: seq<Event>, t1: U64)
    requires Run(EnterStep(s, name, t0), body).Some?
    requires Run(EnterStep(s, name, t0), body).value.entryTimes == EnterStep(s, name, t0).entryTimes
    ensures var r := Run(s, [Entered(name, t0)] + body + [Exited(name, t1)]);
      && r.Some?
      && r.value.entryTimes == s.entryTimes
      && TallyOf(r.value.frequencies, name).calls
         == TallyOf(Run(EnterStep(s, name, t0), body).value.frequencies, name).calls + 1
  {
    var inside := EnterStep(s, name, t0);
    RunAppend(s, [Entered(name, t0)] + body, [Exited(name, t1)]);
    RunAppend(s, [Entered(name, t0)], body);
    assert Run(s, [Entered(name, t0)]) == Some(inside);
    var m := Run(inside, body).value;
    assert CanExit(m, name);
    assert Run(m, [Exited(name, t1)]) == Some(ExitStep(m, name, t1));
  }

  /** RightPadString: s followed by copies of c up to length l; the
      assertion demands that l exceed the length of s. */
  function RightPadString(s: string, l: nat, c: char := ' '): (r: string)
    requires l > |s|
    ensures |r| == l
    ensures r[..|s|] == s
    ensures forall i :: |s| <= i < l ==> r[i] == c
  {
    s + Repeat(c, l - |s|)
  }

  /** The POSIX branch of ExtractShortName: drop everything through the first
      ' ', keep what comes before the first '('. When that '(' comes before
      the start, end - start wraps around as size_t and substr keeps the
      rest of the string. */
  function ExtractShortName(s: string): (r: string)
    ensures |r| <= |s|
    ensures ' ' !in s ==> r <= s && '(' !in r && (|r| == |s| || s[|r|] == '(')
    ensures '(' !in s ==> r == s[|s| - |r|..]
  {
    var start := match FindFrom(s, ' ', 0) case None => 0 case Some(i) => i + 1;
    match FindFrom(s, '(', 0)
    case None => s[start..]
    case Some(end) => if start <= end then s[start..end] else s[start..]
  }

  /** A C++ signature "type name(args": the short name is the name. */
  lemma ShortNameOfSignature(returnType: string, name: string, args: string)
    requires ' ' !in returnType && '(' !in returnType
    requires ' ' !in name && '(' !in name
    ensures ExtractShortName(returnType + " " + name + "(" + args) == name
  {
    var s := returnType + " " + name + "(" + args;
    var k := |returnType|;
    assert s[k] == ' ' && s[k + 1 + |name|] == '(';
    FindFromSkips(s, ' ', 0, k);
    FindFromSkips(s, '(', 0, k + 1 + |name|);
    assert s[k + 1..k + 1 + |name|] == name;
  }

  /** Without a return type (a constructor) but with a space in the argument
      list, the start lies past the '(' and the rest after that space is
      returned: "Foo::Foo(int, int)" gives "int)". */
  lemma ShortNameOfConstructor(name: string, firstArg: string, rest: string)
    requires ' ' !in name && '(' !in name
    requires ' ' !in firstArg
    ensures ExtractShortName(name + "(" + firstArg + " " + rest) == rest
  {
    var s := name + "(" + firstArg + " " + rest;
    var k := |name|;
    var sp := k + 1 + |firstArg|;
    assert s[k] == '(' && s[sp] == ' ';
    FindFromSkips(s, '(', 0, k);
    FindFromSkips(s, ' ', 0, sp);
    assert s[sp + 1..] == rest;
  }

  /** With the first ' ' at i before the first '(' at j, the short name is
      exactly the text strictly between them. */
  lemma ShortNameBetween(s: string, i: nat, j: nat)
    requires i < j < |s|
    requires s[i] == ' ' && ' ' !in s[..i]
    requires s[j] == '(' && '(' !in s[..j]
    ensures ExtractShortName(s) == s[i + 1..j]
  {
    FindFromFirst(s, ' ', i);
    FindFromFirst(s, '(', j);
  }

  /** With the first ' ' at i and no '(' after it unless one comes before it,
      the short name is everything after that space. */
  lemma ShortNameAfterSpace(s: string, i: nat)
    requires i < |s| && s[i] == ' ' && ' ' !in s[..i]
    requires '(' in s[..i] || '(' !in s
    ensures ExtractShortName(s) == s[i + 1..]
  {
    FindFromFirst(s, ' ', i);
    if '(' in s[..i] {
      var j :| 0 <= j < i && s[..i][j] == '(';
      assert s[j] == '(';
    }
  }

  /** The profiler's static state, with the clock's readings as parameters. */
  class Profiler {
    var frequencies: map<string, Tally>
    var entryTimes: seq<Frame>
    var startTime: U64

    function State(): ProfilerState
      reads this
    {
      ProfilerState(entryTimes, frequencies)
    }

    constructor ()
      ensures State() == Idle && startTime == 0
    {
      frequencies := map[];
      entryTimes := [];
      startTime := 0;
    }

    method Start(now: U64)
      modifies this`startTime
      ensures startTime == now
    {
      startTime := now;
    }

    method Enter(name: string, now: U64)
      modifies this`entryTimes
      ensures State() == EnterStep(old(State()), name, now)
    {
      entryTimes := entryTimes + [Frame(name, now)];
    }

    method Exit(name: string, now: U64)
      requires CanExit(State(), name)
      modifies this`entryTimes, this`frequencies
      ensures State() == ExitStep(old(State()), name, now)
    {
      var top := entryTimes[|entryTimes| - 1];
      var tally := TallyOf(frequencies, name);
      frequencies := frequencies[name := Tally(AddElapsed(tally.totalTime, now, top.entryTime), tally.calls + 1)];
      entryTimes := entryTimes[..|entryTimes| - 1];
    }

    /** Print's first column width: ten more than the longest short name, so
        that every RightPadString of the report meets its assertion. */
    method NameColumnWidth() returns (width: nat)
      ensures width >= 10
      ensures forall name :: name in frequencies ==> |ExtractShortName(name)| < width
      ensures frequencies == map[] ==> width == 10
      ensures frequencies != map[] ==> exists name :: name in frequencies && width == |ExtractShortName(name)| + 10
    {
      var longest: nat := 0;
      var remaining := frequencies.Keys;
      ghost var longestName: Option<string> := None;
      while remaining != {}
        invariant remaining <= frequencies.Keys
        invariant forall name :: name in frequencies && name !in remaining ==> |ExtractShortName(name)| <= longest
        invariant longestName.None? ==> longest == 0 && remaining == frequencies.Keys
        invariant longestName.Some? ==> longestName.value in frequencies && longest == |ExtractShortName(longestName.value)|
        decreases |remaining|
      {
        var name :| name in remaining;
        if |ExtractShortName(name)| > longest {
          longest := |ExtractShortName(name)|;
        }
        if longestName.None? || |ExtractShortName(name)| == longest {
          longestName := Some(name);
        }
        remaining := remaining - {name};
      }
      width := longest + 10;
      if longestName.Some? {
        assert longestName.value in frequencies && width == |ExtractShortName(longestName.value)| + 10;
      }
    }
  }
}
