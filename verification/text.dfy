/** Character searches and padding shared by the string code of the utilities:
    std::string::find / find_first_of / find_first_not_of / find_last_of for a
    single character, and the fill-constructor std::string(n, c). A position of
    std::string::npos is modelled as None. */
module Text {

  datatype Option<+T> = None | Some(value: T)

  /** First index at or after `from` holding `c` (s.find(c, from)). */
  function FindFrom(s: string, c: char, from: nat): (r: Option<nat>)
    decreases |s| - from
    ensures r.Some? ==> from <= r.value < |s| && s[r.value] == c
    ensures r.Some? ==> forall i :: from <= i < r.value ==> s[i] != c
    ensures r.None? ==> forall i :: from <= i < |s| ==> s[i] != c
  {
    if from >= |s| then None
    else if s[from] == c then Some(from)
    else FindFrom(s, c, from + 1)
  }

  /** First index at or after `from` NOT holding `c` (s.find_first_not_of(c, from)). */
  function FindNotFrom(s: string, c: char, from: nat): (r: Option<nat>)
    decreases |s| - from
    ensures r.Some? ==> from <= r.value < |s| && s[r.value] != c
    ensures r.Some? ==> forall i :: from <= i < r.value ==> s[i] == c
    ensures r.None? ==> forall i :: from <= i < |s| ==> s[i] == c
  {
    if from >= |s| then None
    else if s[from] != c then Some(from)
    else FindNotFrom(s, c, from + 1)
  }

  /** Last index holding `c` (s.find_last_of(c)). */
  function FindLast(s: string, c: char): (r: Option<nat>)
    ensures r.Some? ==> r.value < |s| && s[r.value] == c
    ensures r.Some? ==> forall i :: r.value < i < |s| ==> s[i] != c
    ensures r.None? ==> forall i :: 0 <= i < |s| ==> s[i] != c
  {
    if |s| == 0 then None
    else if s[|s| - 1] == c then Some(|s| - 1)
    else FindLast(s[..|s| - 1], c)
  }

  /** std::string(n, c): n copies of c. */
  function Repeat(c: char, n: nat): (r: string)
    ensures |r| == n
    ensures forall i :: 0 <= i < n ==> r[i] == c
  {
    seq(n, _ => c)
  }

  /** Searching from `from` skips a stretch that does not hold `c`. */
  lemma {:induction false} FindFromSkips(s: string, c: char, from: nat, to: nat)
    requires from <= to <= |s|
    requires forall i :: from <= i < to ==> s[i] != c
    ensures FindFrom(s, c, from) == FindFrom(s, c, to)
    decreases |s| - from
  {
    if from < to {
      FindFromSkips(s, c, from + 1, to);
    }
  }

  /** Searching from `from` skips a stretch made only of `c`. */
  lemma {:induction false} FindNotFromSkips(s: string, c: char, from: nat, to: nat)
    requires from <= to <= |s|
    requires forall i :: from <= i < to ==> s[i] == c
    ensures FindNotFrom(s, c, from) == FindNotFrom(s, c, to)
    decreases |s| - from
  {
    if from < to {
      FindNotFromSkips(s, c, from + 1, to);
    }
  }

  /** Searching from the start finds `c` at i when i holds the first `c`. */
  lemma FindFromFirst(s: string, c: char, i: nat)
    requires i < |s| && s[i] == c && c !in s[..i]
    ensures FindFrom(s, c, 0) == Some(i)
  {
    forall k | 0 <= k < i ensures s[k] != c {
      assert s[k] == s[..i][k];
    }
    FindFromSkips(s, c, 0, i);
  }

  /** Searching from `from` for a character other than `c` finds the end of
      the run of `c` that starts there, or nothing when the run reaches the end. */
  lemma FindNotFromRun(s: string, c: char, from: nat, k: nat)
    requires from <= k <= |s|
    requires forall i :: from <= i < k ==> s[i] == c
    requires k == |s| || s[k] != c
    ensures FindNotFrom(s, c, from) == if k < |s| then Some(k) else None
  {
    FindNotFromSkips(s, c, from, k);
  }
}
