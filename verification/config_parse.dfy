/** The line-level parsing of ConfigFile (configFile.cpp): carriage-return
    stripping, comments, the split of a line into field and data, and the
    readers that turn the data text into a value. */
module ConfigParse {
  import opened Text

  const CommentCharacter: char := '#'

  /** Removes one trailing '\r' (a Windows line end read on another system). */
  function StripCarriageReturn(s: string): (r: string)
    ensures |s| > 0 && s[|s| - 1] == '\r' ==> r + ['\r'] == s
    ensures !(|s| > 0 && s[|s| - 1] == '\r') ==> r == s
  {
    if |s| > 0 && s[|s| - 1] == '\r' then s[..|s| - 1] else s
  }

  /** Lines the reader ignores: empty, or starting with the comment character. */
  predicate IsCommentOrEmpty(line: string) {
    line == [] || line[0] == CommentCharacter
  }

  /** A line cut at its first '#': the text before it and the comment from it on. */
  function SplitComment(line: string): (r: (string, string))
    ensures r.0 + r.1 == line
    ensures CommentCharacter !in r.0
    ensures r.1 == [] || r.1[0] == CommentCharacter
    ensures CommentCharacter !in line ==> r == (line, [])
  {
    match FindFrom(line, CommentCharacter, 0)
    case None => (line, [])
    case Some(i) => (line[..i], line[i..])
  }

  predicate IsSeparator(c: char) {
    c == ' ' || c == '='
  }

  /** The smaller of two positions where None stands for npos; `whole` when both are npos. */
  function Earliest(a: Option<nat>, b: Option<nat>, whole: nat): nat {
    match (a, b)
    case (None, None) => whole
    case (Some(x), None) => x
    case (None, Some(y)) => y
    case (Some(x), Some(y)) => if x < y then x else y
  }

  function Max(a: nat, b: nat): nat {
    if a < b then b else a
  }

  /** Split(field, data), or OutOfRange where std::string::substr(npos) throws. */
  datatype SplitResult = Split(field: string, data: string) | OutOfRange

  /** The data from startData on: past a run of spaces or a run of equal
      signs, whichever comes first; None where both searches return npos
      and substr(npos) throws. */
  function DataFrom(line: string, startData: nat): (r: Option<string>)
    ensures r.None? <==> startData >= |line|
    ensures r.Some? ==> r.value != [] && startData + |r.value| <= |line| && r.value == line[|line| - |r.value|..]
  {
    var notSpace := FindNotFrom(line, ' ', startData);
    var notEqual := FindNotFrom(line, '=', startData);
    if notSpace.None? && notEqual.None? then
      None
    else
      var a := if notSpace.None? then notEqual.value else notSpace.value;
      var b := if notEqual.None? then notSpace.value else notEqual.value;
      Some(line[Max(a, b)..])
  }

  /** SplitFieldFromData: the field ends at the first ' ' or '=' (whichever
      comes first). The data starts after the LATER of the first ' ' and the
      first '=', past a run of spaces or of equal signs. When that later
      separator is the last character, both searches for the data return
      npos and substr throws. */
  function SplitFieldFromData(line: string): (r: SplitResult)
    ensures r.Split? ==> r.field <= line && ' ' !in r.field && '=' !in r.field
    ensures r.Split? ==> |r.field| == |line| || IsSeparator(line[|r.field|])
    ensures r.Split? && |r.field| == |line| ==> r.data == []
    ensures r.Split? && |r.field| < |line| ==> r.data != [] && |r.data| <= |line| && r.data == line[|line| - |r.data|..]
  {
    var spaceLoc := FindFrom(line, ' ', 0);
    var equalLoc := FindFrom(line, '=', 0);
    var field := line[..Earliest(spaceLoc, equalLoc, |line|)];
    if spaceLoc.None? && equalLoc.None? then
      Split(field, [])
    else
      var sp := if spaceLoc.None? then equalLoc.value else spaceLoc.value;
      var eq := if equalLoc.None? then spaceLoc.value else equalLoc.value;
      match DataFrom(line, Max(sp, eq) + 1)
      case None => OutOfRange
      case Some(data) => Split(field, data)
  }

  /** The split throws exactly when the line ends in a separator that occurs
      nowhere before: then the later of the first ' ' and the first '=' is the
      last character and nothing follows it. */
  lemma SplitOutOfRange(line: string)
    ensures SplitFieldFromData(line).OutOfRange? <==>
      |line| > 0 && IsSeparator(line[|line| - 1]) && line[|line| - 1] !in line[..|line| - 1]
  {
  }

  /** The separator the data follows: sep holds the first ' ' or the first
      '=', and the other separator either occurs earlier or not at all, so
      sep is the later of the two first occurrences. */
  predicate DataSeparatorAt(line: string, sep: nat) {
    sep < |line| && IsSeparator(line[sep]) && line[sep] !in line[..sep] &&
    var other := if line[sep] == ' ' then '=' else ' ';
    other in line[..sep] || other !in line[sep + 1..]
  }

  /** At a data separator the search for its own character finds it, and
      the search for the other one finds an earlier position or nothing. */
  lemma DataSeparatorFound(line: string, sep: nat)
    requires DataSeparatorAt(line, sep)
    ensures FindFrom(line, line[sep], 0) == Some(sep)
    ensures var other := FindFrom(line, if line[sep] == ' ' then '=' else ' ', 0);
      other.None? || other.value < sep
  {
    var c := line[sep];
    var other := if c == ' ' then '=' else ' ';
    FindFromFirst(line, c, sep);
    if other in line[..sep] {
      var j :| 0 <= j < sep && line[..sep][j] == other;
      assert line[j] == other;
    } else {
      forall i | 0 <= i < |line| ensures line[i] != other {
        if i < sep {
          assert line[i] == line[..sep][i];
        } else if i > sep {
          assert line[i] == line[sep + 1..][i - sep - 1];
        }
      }
    }
  }

  /** After a data separator the data is what DataFrom finds past it. */
  lemma SplitDataAfter(line: string, sep: nat)
    requires DataSeparatorAt(line, sep)
    ensures DataFrom(line, sep + 1).Some? ==>
      SplitFieldFromData(line).Split? && SplitFieldFromData(line).data == DataFrom(line, sep + 1).value
  {
    DataSeparatorFound(line, sep);
  }

  /** DataFrom past the end of a run of `c`, which it skips when `c` is a
      separator and the run stops before the end of the line. */
  lemma DataFromRun(line: string, start: nat, k: nat)
    requires start < |line| && start <= k <= |line|
    requires IsSeparator(line[start]) ==> forall i :: start <= i < k ==> line[i] == line[start]
    requires IsSeparator(line[start]) ==> k == |line| || line[k] != line[start]
    ensures !IsSeparator(line[start]) ==> DataFrom(line, start) == Some(line[start..])
    ensures IsSeparator(line[start]) && k < |line| ==> DataFrom(line, start) == Some(line[k..])
    ensures IsSeparator(line[start]) && k == |line| ==> DataFrom(line, start) == Some(line[start..])
  {
    var d := line[start];
    if d == ' ' {
      FindNotFromRun(line, ' ', start, k);
      assert FindNotFrom(line, '=', start) == Some(start);
    } else if d == '=' {
      FindNotFromRun(line, '=', start, k);
      assert FindNotFrom(line, ' ', start) == Some(start);
    } else {
      assert FindNotFrom(line, '=', start) == Some(start);
      assert FindNotFrom(line, ' ', start) == Some(start);
    }
  }

  /** Where the data starts. Let k end the run of the character after the
      separator. Past a run of spaces or of equal signs that stops before the
      end of the line the data starts at k; a run that reaches the end is
      itself the data; after any other character the data starts right after
      the separator. So "k  v" gives "v", "k == v" gives "v", "k = = v"
      gives "= v". */
  lemma SplitDataStart(line: string, sep: nat, k: nat)
    requires DataSeparatorAt(line, sep) && sep + 1 < |line|
    requires sep + 1 <= k <= |line|
    requires IsSeparator(line[sep + 1]) ==> forall i :: sep + 1 <= i < k ==> line[i] == line[sep + 1]
    requires IsSeparator(line[sep + 1]) ==> k == |line| || line[k] != line[sep + 1]
    ensures SplitFieldFromData(line).Split?
    ensures !IsSeparator(line[sep + 1]) ==> SplitFieldFromData(line).data == line[sep + 1..]
    ensures IsSeparator(line[sep + 1]) && k < |line| ==> SplitFieldFromData(line).data == line[k..]
    ensures IsSeparator(line[sep + 1]) && k == |line| ==> SplitFieldFromData(line).data == line[sep + 1..]
  {
    DataFromRun(line, sep + 1, k);
    SplitDataAfter(line, sep);
  }

  /** A separator-free prefix followed by a separator is the field. */
  lemma SplitFieldIs(line: string, field: string)
    requires ' ' !in field && '=' !in field && field < line && IsSeparator(line[|field|])
    requires SplitFieldFromData(line).Split?
    ensures SplitFieldFromData(line).field == field
  {
  }

  /** Only one run is skipped: the run of spaces after "k =" ends at the
      second '=', which stays in the data. */
  lemma SplitSkipsOneRun()
    ensures SplitFieldFromData("k = = v") == Split("k", "= v")
  {
    var line := "k = = v";
    assert line[..2] == "k " && line[1] == ' ' && line[3] == ' ' && line[4] == '=';
    SplitDataStart(line, 2, 4);
    assert line[4..] == "= v";
    assert line[..1] == "k";
  }

  /** A field name the splitter reads back whole. */
  predicate IsPlainField(field: string) {
    ' ' !in field && '=' !in field
  }

  /** A data text the splitter does not eat into. */
  predicate IsPlainValue(value: string) {
    value != [] && !IsSeparator(value[0])
  }

  /** "key = value" gives field key and data value. */
  lemma SplitSpacedEquals(key: string, value: string)
    requires IsPlainField(key) && IsPlainValue(value)
    ensures SplitFieldFromData(key + " = " + value) == Split(key, value)
  {
    var k := |key|;
    var line := key + " = " + value;
    assert line[k] == ' ' && line[k + 1] == '=' && line[k + 2] == ' ';
    FindFromSkips(line, ' ', 0, k);
    FindFromSkips(line, '=', 0, k + 1);
    FindNotFromSkips(line, ' ', k + 2, k + 3);
    assert line[..k] == key;
    assert line[k + 3..] == value;
  }

  /** In "key = rest" the '=' is the data separator and the key is the field. */
  lemma SpacedEqualsSeparator(line: string, key: string, rest: string)
    requires IsPlainField(key) && line == key + " = " + rest
    ensures DataSeparatorAt(line, |key| + 1)
    ensures SplitFieldFromData(line).Split? ==> SplitFieldFromData(line).field == key
  {
    var k := |key|;
    assert line[..k + 1] == key + " " && line[k + 1] == '=';
    assert line[..k] == key && line[k] == ' ';
    if SplitFieldFromData(line).Split? {
      SplitFieldIs(line, key);
    }
  }

  /** A value of only spaces: "key = " followed by n spaces splits into the
      key and n + 1 spaces, since the run of spaces after '=' reaches the end
      of the line and is itself the data. So an empty value gives " ". */
  lemma SplitSpacedEqualsBlank(key: string, n: nat)
    requires IsPlainField(key)
    ensures SplitFieldFromData(key + " = " + Repeat(' ', n)) == Split(key, Repeat(' ', n + 1))
  {
    var rest := Repeat(' ', n);
    var line := key + " = " + rest;
    var k := |key|;
    SpacedEqualsSeparator(line, key, rest);
    forall i | k + 2 <= i < |line| ensures line[i] == ' ' {
      if i > k + 2 { assert line[i] == rest[i - k - 3]; }
    }
    assert line[k + 2..] == Repeat(' ', n + 1);
    DataFromRun(line, k + 2, |line|);
    SplitDataAfter(line, k + 1);
  }

  /** Leading spaces of a value are lost: "key = " followed by n more spaces
      and a plain value splits into the key and that value alone. */
  lemma SplitSpacedEqualsPadded(key: string, n: nat, value: string)
    requires IsPlainField(key) && IsPlainValue(value)
    ensures SplitFieldFromData(key + " = " + (Repeat(' ', n) + value)) == Split(key, value)
  {
    var rest := Repeat(' ', n) + value;
    var line := key + " = " + rest;
    var k := |key|;
    var end := k + 3 + n;
    SpacedEqualsSeparator(line, key, rest);
    forall i | k + 2 <= i < end ensures line[i] == ' ' {
      if i > k + 2 { assert line[i] == rest[i - k - 3]; }
    }
    assert line[end] == value[0];
    assert line[end..] == value;
    DataFromRun(line, k + 2, end);
    SplitDataAfter(line, k + 1);
  }

  /** "key=value" gives field key and data value while value holds no space. */
  lemma SplitBareEquals(key: string, value: string)
    requires IsPlainField(key) && IsPlainValue(value) && ' ' !in value
    ensures SplitFieldFromData(key + "=" + value) == Split(key, value)
  {
    var k := |key|;
    var line := key + "=" + value;
    assert line[k] == '=';
    assert forall i :: 0 <= i < |line| ==> line[i] != ' ' by {
      forall i | 0 <= i < |line| ensures line[i] != ' ' {
        if i > k { assert line[i] == value[i - k - 1]; }
      }
    }
    FindFromSkips(line, '=', 0, k);
    assert line[..k] == key;
    assert line[k + 1..] == value;
  }

  /** "key value" gives field key and data value while value holds no '='. */
  lemma SplitBareSpace(key: string, value: string)
    requires IsPlainField(key) && IsPlainValue(value) && '=' !in value
    ensures SplitFieldFromData(key + " " + value) == Split(key, value)
  {
    var k := |key|;
    var line := key + " " + value;
    assert line[..k] == key && line[k] == ' ' && line[k + 1..] == value;
    SplitDataStart(line, k, k + 1);
  }

  /** Data holding a space after a bare '=' loses everything up to that space:
      "name=John Smith" reads as name = "Smith". */
  lemma SplitDropsDataBeforeSpace()
    ensures SplitFieldFromData("name=John Smith") == Split("name", "Smith")
  {
    var line := "name=John Smith";
    assert line[4] == '=' && line[9] == ' ' && line[10] == 'S';
    FindFromSkips(line, ' ', 0, 9);
    assert FindFrom(line, ' ', 0) == Some(9);
    FindFromSkips(line, '=', 0, 4);
    assert FindFrom(line, '=', 0) == Some(4);
    assert FindNotFrom(line, ' ', 10) == Some(10);
    assert FindNotFrom(line, '=', 10) == Some(10);
    assert line[..4] == "name";
    assert line[10..] == "Smith";
  }

  datatype ReaderResult<T> = ReaderResult(success: bool, value: T)

  /** True exactly for the data "1" or no data at all; never fails. */
  function BoolReader(data: string): (r: ReaderResult<bool>)
    ensures r.success
    ensures r.value <==> data == "1" || data == []
  {
    ReaderResult(true, data == "1" || data == [])
  }

  function StringReader(data: string): (r: ReaderResult<string>)
    ensures r.success && r.value == data
  {
    ReaderResult(true, data)
  }

  /** Appends the data as one more element; earlier elements are kept. */
  function StringVectorReader(data: string, values: seq<string>): (r: ReaderResult<seq<string>>)
    ensures r.success
    ensures |r.value| == |values| + 1 && r.value[..|values|] == values && r.value[|values|] == data
  {
    var s := StringReader(data);
    if !s.success then ReaderResult(false, values)
    else ReaderResult(true, values + [s.value])
  }

  /** How `stream << b` writes a bool (no boolalpha). */
  function BoolText(b: bool): string {
    if b then "1" else "0"
  }

  lemma BoolTextRoundTrip(b: bool)
    ensures BoolReader(BoolText(b)).value == b
  {
  }
}
