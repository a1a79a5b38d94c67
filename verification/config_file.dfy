/** The ConfigFile object (configFile.h, configFile.cpp): the registry of
    configuration items, the line loop that reads a configuration and the
    line loop that rewrites one field of it. A file is modelled as its
    sequence of lines, without their line ends. */
module ConfigFile {
  import opened Text
  import opened ConfigParse

  /** The variable a registered item points at, by kind. */
  datatype ConfigValue =
    | BoolValue(b: bool)
    | StringValue(s: string)
    | StringVectorValue(v: seq<string>)

  /** The address of a variable registered with AddConfigItem. */
  type DataAddress = nat

  /** Assigning data to an item, through the reader of the item's kind: the
      kind never changes, a bool becomes true exactly for "1" or no data, a
      string becomes the data and a string vector gains the data at its end. */
  function AssignValue(current: ConfigValue, data: string): (r: ConfigValue)
    ensures r.BoolValue? <==> current.BoolValue?
    ensures r.StringValue? <==> current.StringValue?
    ensures current.BoolValue? ==> (r.b <==> data == "1" || data == [])
    ensures current.StringValue? ==> r.s == data
    ensures current.StringVectorValue? ==> r.StringVectorValue? && r.v == current.v + [data]
  {
    match current
    case BoolValue(_) => BoolValue(BoolReader(data).value)
    case StringValue(_) => StringValue(StringReader(data).value)
    case StringVectorValue(v) => StringVectorValue(StringVectorReader(data, v).value)
  }

  /** Every registered key points at a variable that exists. */
  predicate ItemsIn(items: map<string, DataAddress>, values: map<DataAddress, ConfigValue>) {
    forall k :: k in items ==> items[k] in values
  }

  /** ProcessConfigItem on values: a registered field has its variable
      assigned, an unknown field changes nothing. */
  function ProcessItem(items: map<string, DataAddress>, values: map<DataAddress, ConfigValue>,
                       field: string, data: string): (r: map<DataAddress, ConfigValue>)
    requires ItemsIn(items, values)
    ensures r.Keys == values.Keys
    ensures forall a :: a in values && (field !in items || a != items[field]) ==> r[a] == values[a]
    ensures field in items ==> r[items[field]] == AssignValue(values[items[field]], data)
  {
    if field in items then
      values[items[field] := AssignValue(values[items[field]], data)]
    else
      values
  }

  /** One pass of ReadConfiguration's loop body; None when splitting throws. */
  function ReadLine(items: map<string, DataAddress>, values: map<DataAddress, ConfigValue>,
                    line: string): (r: Option<map<DataAddress, ConfigValue>>)
    requires ItemsIn(items, values)
    ensures r.Some? ==> r.value.Keys == values.Keys
    ensures IsCommentOrEmpty(StripCarriageReturn(line)) ==> r == Some(values)
    ensures !IsCommentOrEmpty(StripCarriageReturn(line)) ==>
      match SplitFieldFromData(SplitComment(StripCarriageReturn(line)).0)
      case OutOfRange => r.None?
      case Split(field, data) => r == Some(ProcessItem(items, values, field, data))
  {
    var text := StripCarriageReturn(line);
    if IsCommentOrEmpty(text) then Some(values)
    else
      match SplitFieldFromData(SplitComment(text).0)
      case OutOfRange => None
      case Split(field, data) => Some(ProcessItem(items, values, field, data))
  }

  /** The variables after reading, and whether std::out_of_range escaped. */
  datatype ReadOutcome = ReadOutcome(values: map<DataAddress, ConfigValue>, threw: bool)

  /** The lines read in order; an exception stops the reading where it is. */
  function ReadFrom(items: map<string, DataAddress>, values: map<DataAddress, ConfigValue>,
                    lines: seq<string>): (r: ReadOutcome)
    requires ItemsIn(items, values)
    ensures r.values.Keys == values.Keys
    decreases |lines|
  {
    if lines == [] then ReadOutcome(values, false)
    else
      match ReadLine(items, values, lines[0])
      case None => ReadOutcome(values, true)
      case Some(next) => ReadFrom(items, next, lines[1..])
  }

  /** A file of blank lines and full-line comments changes nothing. */
  lemma {:induction false} ReadSkipsComments(items: map<string, DataAddress>,
                                             values: map<DataAddress, ConfigValue>, lines: seq<string>)
    requires ItemsIn(items, values)
    requires forall i :: 0 <= i < |lines| ==> IsCommentOrEmpty(StripCarriageReturn(lines[i]))
    ensures ReadFrom(items, values, lines) == ReadOutcome(values, false)
    decreases |lines|
  {
    if lines != [] {
      ReadSkipsComments(items, values, lines[1..]);
    }
  }

  /** Reading a + b is reading a and then, unless a threw, reading b from
      where a left the variables. */
  lemma {:induction false} ReadFromAppend(items: map<string, DataAddress>,
                                          values: map<DataAddress, ConfigValue>,
                                          a: seq<string>, b: seq<string>)
    requires ItemsIn(items, values)
    ensures var first := ReadFrom(items, values, a);
      ItemsIn(items, first.values) &&
      ReadFrom(items, values, a + b) == if first.threw then first else ReadFrom(items, first.values, b)
    decreases |a|
  {
    if a == [] {
      assert a + b == b;
    } else {
      assert (a + b)[0] == a[0] && (a + b)[1..] == a[1..] + b;
      match ReadLine(items, values, a[0])
      case None =>
      case Some(next) =>
        ReadFromAppend(items, next, a[1..], b);
    }
  }

  /** A blank line or full-line comment anywhere in the file changes nothing. */
  lemma ReadSkipsCommentLine(items: map<string, DataAddress>, values: map<DataAddress, ConfigValue>,
                             a: seq<string>, comment: string, b: seq<string>)
    requires ItemsIn(items, values)
    requires IsCommentOrEmpty(StripCarriageReturn(comment))
    ensures ReadFrom(items, values, a + [comment] + b) == ReadFrom(items, values, a + b)
  {
    assert a + [comment] + b == a + ([comment] + b);
    ReadFromAppend(items, values, a, [comment] + b);
    ReadFromAppend(items, values, a, b);
    var first := ReadFrom(items, values, a);
    if !first.threw {
      assert ([comment] + b)[0] == comment && ([comment] + b)[1..] == b;
    }
  }

  /** The lines as a Windows editor saves them: each ends in '\r' before its '\n'. */
  function WithCarriageReturns(lines: seq<string>): (r: seq<string>)
    ensures |r| == |lines|
  {
    if lines == [] then [] else [lines[0] + ['\r']] + WithCarriageReturns(lines[1..])
  }

  /** A file written with "\r\n" line ends reads exactly as with "\n". */
  lemma {:induction false} ReadIgnoresCarriageReturns(items: map<string, DataAddress>,
                                                      values: map<DataAddress, ConfigValue>,
                                                      lines: seq<string>)
    requires ItemsIn(items, values)
    requires forall i :: 0 <= i < |lines| ==> lines[i] == [] || lines[i][|lines[i]| - 1] != '\r'
    ensures ReadFrom(items, values, WithCarriageReturns(lines)) == ReadFrom(items, values, lines)
    decreases |lines|
  {
    if lines != [] {
      var windows := WithCarriageReturns(lines);
      assert StripCarriageReturn(windows[0]) == lines[0];
      assert ReadLine(items, values, windows[0]) == ReadLine(items, values, lines[0]);
      assert windows[1..] == WithCarriageReturns(lines[1..]);
      match ReadLine(items, values, lines[0])
      case None =>
      case Some(next) =>
        ReadIgnoresCarriageReturns(items, next, lines[1..]);
    }
  }

  /** Text free of '#' followed by a comment splits back into the two. */
  lemma SplitCommentAt(text: string, comment: string)
    requires CommentCharacter !in text
    requires comment == [] || comment[0] == CommentCharacter
    ensures SplitComment(text + comment) == (text, comment)
  {
    var line := text + comment;
    FindFromSkips(line, CommentCharacter, 0, |text|);
    if comment != [] {
      assert line[|text|] == CommentCharacter;
      assert line[|text|..] == comment;
    } else {
      assert line == text;
    }
    assert line[..|text|] == text;
  }

  lemma NoCommentInAssignment(field: string, value: string)
    requires CommentCharacter !in field && CommentCharacter !in value
    ensures CommentCharacter !in field + " = " + value
  {
    var text := field + " = " + value;
    forall i | 0 <= i < |text| ensures text[i] != CommentCharacter {
      if i < |field| { assert text[i] == field[i]; }
      else if i >= |field| + 3 { assert text[i] == value[i - |field| - 3]; }
    }
  }

  /** The line "field = value" that WriteConfiguration writes reads back as
      the value for that field, with or without a trailing comment, when
      neither holds '#', the field holds no separator, the value is
      non-empty and does not start with ' ' or '=', and the line does not
      end in '\r'. ReadWrittenEmptyValue and ReadWrittenDropsLeadingSpaces
      show two values outside that domain. */
  lemma ReadWrittenLine(items: map<string, DataAddress>, values: map<DataAddress, ConfigValue>,
                        field: string, value: string, comment: string)
    requires ItemsIn(items, values)
    requires IsPlainField(field) && CommentCharacter !in field
    requires IsPlainValue(value) && CommentCharacter !in value
    requires comment == [] || comment[0] == CommentCharacter
    requires comment == [] ==> value[|value| - 1] != '\r'
    requires comment != [] ==> comment[|comment| - 1] != '\r'
    ensures ReadFrom(items, values, [field + " = " + value + comment])
         == ReadOutcome(ProcessItem(items, values, field, value), false)
  {
    var text := field + " = " + value;
    var line := text + comment;
    assert StripCarriageReturn(line) == line;
    assert line[0] != CommentCharacter by {
      if field != [] { assert line[0] == field[0]; } else { assert line[0] == ' '; }
    }
    NoCommentInAssignment(field, value);
    SplitCommentAt(text, comment);
    SplitSpacedEquals(field, value);
  }

  /** A one-line file whose line is not a comment, holds no '#', does not
      end in '\r' and splits into (field, data) assigns data to field. */
  lemma ReadSplitLine(items: map<string, DataAddress>, values: map<DataAddress, ConfigValue>,
                      line: string, field: string, data: string)
    requires ItemsIn(items, values)
    requires line != [] && line[0] != CommentCharacter && line[|line| - 1] != '\r'
    requires CommentCharacter !in line
    requires SplitFieldFromData(line) == Split(field, data)
    ensures ReadFrom(items, values, [line]) == ReadOutcome(ProcessItem(items, values, field, data), false)
  {
    assert StripCarriageReturn(line) == line;
    assert [line][1..] == [];
  }

  /** An empty value is written as "field = " and reads back as a single space. */
  lemma ReadWrittenEmptyValue(items: map<string, DataAddress>, values: map<DataAddress, ConfigValue>,
                              field: string)
    requires ItemsIn(items, values)
    requires IsPlainField(field) && CommentCharacter !in field
    ensures ReadFrom(items, values, [AssignmentLine(field, "")])
         == ReadOutcome(ProcessItem(items, values, field, " "), false)
  {
    var line := AssignmentLine(field, "");
    assert line == field + " = ";
    assert line[0] != CommentCharacter by {
      if field != [] { assert line[0] == field[0]; }
    }
    NoCommentInAssignment(field, "");
    SplitSpacedEqualsBlank(field, 0);
    assert Repeat(' ', 0) == "" && Repeat(' ', 1) == " ";
    assert line == field + " = " + Repeat(' ', 0);
    ReadSplitLine(items, values, line, field, " ");
  }

  /** Leading spaces of a written value do not read back. */
  lemma ReadWrittenDropsLeadingSpaces(items: map<string, DataAddress>, values: map<DataAddress, ConfigValue>,
                                      field: string, n: nat, value: string)
    requires ItemsIn(items, values)
    requires IsPlainField(field) && CommentCharacter !in field
    requires IsPlainValue(value) && CommentCharacter !in value && value[|value| - 1] != '\r'
    ensures ReadFrom(items, values, [AssignmentLine(field, Repeat(' ', n) + value)])
         == ReadOutcome(ProcessItem(items, values, field, value), false)
  {
    var spaced := Repeat(' ', n) + value;
    var line := AssignmentLine(field, spaced);
    assert line == field + " = " + spaced;
    assert line[0] != CommentCharacter by {
      if field != [] { assert line[0] == field[0]; }
    }
    assert line[|line| - 1] == value[|value| - 1];
    forall i | 0 <= i < |spaced| ensures spaced[i] != CommentCharacter {
      if i >= n { assert spaced[i] == value[i - n]; }
    }
    NoCommentInAssignment(field, spaced);
    SplitSpacedEqualsPadded(field, n, value);
    ReadSplitLine(items, values, line, field, value);
  }

  /** "key=value #comment" throws: cut at '#', the text ends in the first space. */
  lemma ReadThrowsOnSpaceBeforeComment(items: map<string, DataAddress>,
                                       values: map<DataAddress, ConfigValue>,
                                       key: string, value: string)
    requires ItemsIn(items, values)
    requires ' ' !in key && CommentCharacter !in key && key != [] && key[0] != '\r'
    requires ' ' !in value && CommentCharacter !in value
    ensures ReadLine(items, values, key + "=" + value + " #") == None
  {
    var text := key + "=" + value + " ";
    var line := text + "#";
    assert StripCarriageReturn(line) == line;
    assert line[0] == key[0] && key[0] in key;
    assert forall i :: 0 <= i < |text| - 1 ==> text[i] != ' ' && text[i] != CommentCharacter by {
      forall i | 0 <= i < |text| - 1 ensures text[i] != ' ' && text[i] != CommentCharacter {
        if i < |key| { assert text[i] == key[i]; }
        else if i > |key| { assert text[i] == value[i - |key| - 1]; }
      }
    }
    SplitCommentAt(text, "#");
    assert SplitComment(line).0 == text;
    assert text[|text| - 1] == ' ';
    assert ' ' !in text[..|text| - 1];
    SplitOutOfRange(text);
    assert SplitFieldFromData(text) == OutOfRange;
    assert !IsCommentOrEmpty(line);
    assert ReadLine(items, values, line) == None;
    assert line == key + "=" + value + " #";
  }

  /** What WriteConfiguration produces: the new lines, or an exception that
      leaves the file as it was (the original is only replaced at the end). */
  datatype Rewrite = Rewritten(lines: seq<string>) | ThrewOutOfRange

  function Prepend(out: seq<string>, r: Rewrite): Rewrite {
    match r
    case Rewritten(rest) => Rewritten(out + rest)
    case ThrewOutOfRange => ThrewOutOfRange
  }

  /** The line written for the field. */
  function AssignmentLine(field: string, valueText: string): string {
    field + " = " + valueText
  }

  /** One pass of the rewrite loop: the line emitted and the new `written`
      and `comment`, or the exception thrown by splitting. */
  datatype LineStep = Emit(out: string, written: bool, comment: string) | Throw

  /** A processed line (not yet written, not blank, not a full comment) is
      cut at '#', split, and replaced when its field matches; every line is
      emitted followed by the current comment. */
  function RewriteLine(line: string, field: string, valueText: string,
                       written: bool, comment: string): (r: LineStep)
    ensures r.Emit? && r.written != written ==> !written && r.out == AssignmentLine(field, valueText) + r.comment
    ensures written ==> r == Emit(line + comment, written, comment)
    ensures !written && IsCommentOrEmpty(line) ==> r == Emit(line + comment, false, comment)
    ensures !written && !IsCommentOrEmpty(line) && r.Emit? ==>
      r.comment == SplitComment(line).1 &&
      SplitFieldFromData(SplitComment(line).0).Split? &&
      (r.written <==> SplitFieldFromData(SplitComment(line).0).field == field) &&
      (!r.written ==> r.out == line)
    ensures r.Throw? <==> !written && !IsCommentOrEmpty(line) && SplitFieldFromData(SplitComment(line).0).OutOfRange?
  {
    if !written && !IsCommentOrEmpty(line) then
      var (text, lineComment) := SplitComment(line);
      match SplitFieldFromData(text)
      case OutOfRange => Throw
      case Split(currentField, _) =>
        var out := if currentField == field then AssignmentLine(field, valueText) else text;
        Emit(out + lineComment, currentField == field, lineComment)
    else
      Emit(line + comment, written, comment)
  }

  /** The rewrite loop from a given state: `written` once the field has been
      replaced, `comment` the inline comment of the last line processed;
      "field = value" is appended at the end when nothing was replaced. */
  function RewriteFrom(lines: seq<string>, field: string, valueText: string,
                       written: bool, comment: string): (r: Rewrite)
    ensures r.Rewritten? ==> |lines| <= |r.lines| <= |lines| + 1
    ensures written ==> r.Rewritten? && |r.lines| == |lines|
    decreases |lines|
  {
    if lines == [] then
      Rewritten(if written then [] else [AssignmentLine(field, valueText)])
    else
      match RewriteLine(lines[0], field, valueText, written, comment)
      case Throw => ThrewOutOfRange
      case Emit(out, nowWritten, nowComment) =>
        Prepend([out], RewriteFrom(lines[1..], field, valueText, nowWritten, nowComment))
  }

  lemma PrependTwice(out: seq<string>, more: seq<string>, r: Rewrite)
    ensures Prepend(out, Prepend(more, r)) == Prepend(out + more, r)
  {
    match r
    case ThrewOutOfRange =>
    case Rewritten(rest) =>
      assert out + (more + rest) == (out + more) + rest;
  }

  /** Each line followed by the comment. */
  function WithComment(lines: seq<string>, comment: string): (r: seq<string>)
    ensures |r| == |lines|
    ensures forall i :: 0 <= i < |lines| ==> r[i] == lines[i] + comment
  {
    seq(|lines|, i requires 0 <= i < |lines| => lines[i] + comment)
  }

  /** A line the rewrite goes past while looking for `field`, neither
      replacing it nor throwing: blank, a full-line comment, or a line whose
      text before '#' splits to another field. */
  predicate PassesUnmatched(line: string, field: string) {
    IsCommentOrEmpty(line) ||
    (SplitFieldFromData(SplitComment(line).0).Split? &&
     SplitFieldFromData(SplitComment(line).0).field != field)
  }

  /** A line passed without a match that also carries no inline comment. */
  predicate Untouched(line: string, field: string) {
    PassesUnmatched(line, field) && (IsCommentOrEmpty(line) || CommentCharacter !in line)
  }

  /** The rewrite's `comment` after the lines have gone by without a match:
      each processed line sets it to its own inline comment (possibly empty),
      blank lines and full-line comments leave it alone. */
  function LastComment(lines: seq<string>, comment: string): string
    decreases |lines|
  {
    if lines == [] then comment
    else LastComment(lines[1..], if IsCommentOrEmpty(lines[0]) then comment else SplitComment(lines[0]).1)
  }

  /** LastComment is the inline comment of the LAST processed line, or the
      starting comment when no line was processed. */
  lemma {:induction false} LastCommentSnoc(lines: seq<string>, line: string, comment: string)
    ensures LastComment(lines + [line], comment)
         == if IsCommentOrEmpty(line) then LastComment(lines, comment) else SplitComment(line).1
    decreases |lines|
  {
    if lines == [] {
      assert lines + [line] == [line];
    } else {
      var next := if IsCommentOrEmpty(lines[0]) then comment else SplitComment(lines[0]).1;
      assert (lines + [line])[0] == lines[0] && (lines + [line])[1..] == lines[1..] + [line];
      LastCommentSnoc(lines[1..], line, next);
    }
  }

  /** The lines before the match as the rewrite writes them: a processed line
      is written back as it is, and a blank line or full-line comment is
      written followed by the inline comment of the last processed line
      before it. */
  function PassedLines(lines: seq<string>, comment: string): (r: seq<string>)
    ensures |r| == |lines|
    ensures forall i :: 0 <= i < |lines| ==>
      r[i] == if IsCommentOrEmpty(lines[i]) then lines[i] + LastComment(lines[..i], comment) else lines[i]
  {
    seq(|lines|, i requires 0 <= i < |lines| =>
      if IsCommentOrEmpty(lines[i]) then lines[i] + LastComment(lines[..i], comment) else lines[i])
  }

  /** Once written, every further line is copied followed by the leftover comment. */
  lemma {:induction false} RewriteAfterWritten(lines: seq<string>, field: string, valueText: string,
                                               comment: string)
    ensures RewriteFrom(lines, field, valueText, true, comment) == Rewritten(WithComment(lines, comment))
    decreases |lines|
  {
    if lines != [] {
      RewriteAfterWritten(lines[1..], field, valueText, comment);
      assert WithComment(lines, comment) == [lines[0] + comment] + WithComment(lines[1..], comment);
    }
  }

  /** RewriteFrom on a non-empty sequence, one pass of the loop unfolded. */
  lemma RewriteEmits(lines: seq<string>, field: string, valueText: string, written: bool, comment: string,
                     out: string, nowWritten: bool, nowComment: string)
    requires lines != []
    requires RewriteLine(lines[0], field, valueText, written, comment) == Emit(out, nowWritten, nowComment)
    ensures RewriteFrom(lines, field, valueText, written, comment)
         == Prepend([out], RewriteFrom(lines[1..], field, valueText, nowWritten, nowComment))
  {
  }

  /** A line passed without a match, as the rewrite writes it, and the comment after it. */
  function PassingStep(line: string, comment: string): (string, string) {
    if IsCommentOrEmpty(line) then (line + comment, comment) else (line, SplitComment(line).1)
  }

  lemma PassingLine(line: string, field: string, valueText: string, comment: string)
    requires PassesUnmatched(line, field)
    ensures var (out, next) := PassingStep(line, comment);
      RewriteLine(line, field, valueText, false, comment) == Emit(out, false, next)
  {
  }

  /** PassedLines and LastComment with their first line taken off. */
  lemma PassedLinesCons(pre: seq<string>, comment: string)
    requires pre != []
    ensures var (out, next) := PassingStep(pre[0], comment);
      PassedLines(pre, comment) == [out] + PassedLines(pre[1..], next) &&
      LastComment(pre, comment) == LastComment(pre[1..], next)
  {
    var (out, next) := PassingStep(pre[0], comment);
    forall i | 0 <= i < |pre|
      ensures ([out] + PassedLines(pre[1..], next))[i] == PassedLines(pre, comment)[i]
    {
      if i > 0 {
        assert pre[..i][0] == pre[0] && pre[..i][1..] == pre[1..][..i - 1];
      }
    }
  }

  /** Lines before the first match are written as PassedLines says, and the
      rewrite goes on with the comment of the last of them that was processed. */
  lemma {:induction false} RewritePassing(pre: seq<string>, rest: seq<string>,
                                          field: string, valueText: string, comment: string)
    requires forall i :: 0 <= i < |pre| ==> PassesUnmatched(pre[i], field)
    ensures RewriteFrom(pre + rest, field, valueText, false, comment)
         == Prepend(PassedLines(pre, comment), RewriteFrom(rest, field, valueText, false, LastComment(pre, comment)))
    decreases |pre|
  {
    if pre == [] {
      assert pre + rest == rest;
      assert PassedLines(pre, comment) == [];
      PrependTwice([], [], RewriteFrom(rest, field, valueText, false, comment));
    } else {
      var (out, next) := PassingStep(pre[0], comment);
      var lines := pre + rest;
      assert lines[0] == pre[0] && lines[1..] == pre[1..] + rest;
      PassingLine(pre[0], field, valueText, comment);
      RewriteEmits(lines, field, valueText, false, comment, out, false, next);
      assert forall i :: 0 <= i < |pre[1..]| ==> pre[1..][i] == pre[i + 1];
      RewritePassing(pre[1..], rest, field, valueText, next);
      PassedLinesCons(pre, comment);
      PrependTwice([out], PassedLines(pre[1..], next), RewriteFrom(rest, field, valueText, false, LastComment(pre, comment)));
    }
  }

  /** No match: the lines are written as PassedLines says and "field = value"
      is appended once, without a comment. */
  lemma RewriteAppendsWhenAbsent(lines: seq<string>, field: string, valueText: string)
    requires forall i :: 0 <= i < |lines| ==> PassesUnmatched(lines[i], field)
    ensures RewriteFrom(lines, field, valueText, false, [])
         == Rewritten(PassedLines(lines, []) + [AssignmentLine(field, valueText)])
  {
    RewritePassing(lines, [], field, valueText, []);
    assert lines + [] == lines;
  }

  /** The first line whose field matches is replaced, keeping its inline
      comment; that comment is then also appended to every later line. The
      lines before it are written as PassedLines says. */
  lemma RewriteReplacesFirstMatch(pre: seq<string>, matched: string, post: seq<string>,
                                  field: string, valueText: string)
    requires forall i :: 0 <= i < |pre| ==> PassesUnmatched(pre[i], field)
    requires !IsCommentOrEmpty(matched)
    requires SplitFieldFromData(SplitComment(matched).0).Split?
    requires SplitFieldFromData(SplitComment(matched).0).field == field
    ensures var c := SplitComment(matched).1;
      RewriteFrom(pre + [matched] + post, field, valueText, false, [])
      == Rewritten(PassedLines(pre, []) + [AssignmentLine(field, valueText) + c] + WithComment(post, c))
  {
    var c := SplitComment(matched).1;
    assert pre + [matched] + post == pre + ([matched] + post);
    RewritePassing(pre, [matched] + post, field, valueText, []);
    assert ([matched] + post)[0] == matched && ([matched] + post)[1..] == post;
    RewriteAfterWritten(post, field, valueText, c);
    PrependTwice(PassedLines(pre, []), [AssignmentLine(field, valueText) + c], Rewritten(WithComment(post, c)));
  }

  /** Without inline comments nothing is carried: the lines are written back
      unchanged. */
  lemma {:induction false} PassedLinesUntouched(lines: seq<string>, field: string)
    requires forall i :: 0 <= i < |lines| ==> Untouched(lines[i], field)
    ensures LastComment(lines, []) == []
    ensures PassedLines(lines, []) == lines
    decreases |lines|
  {
    if lines != [] {
      var last := |lines| - 1;
      assert lines == lines[..last] + [lines[last]];
      PassedLinesUntouched(lines[..last], field);
      LastCommentSnoc(lines[..last], lines[last], []);
      if !IsCommentOrEmpty(lines[last]) {
        assert SplitComment(lines[last]) == (lines[last], []);
      }
      forall i | 0 <= i < |lines| ensures PassedLines(lines, [])[i] == lines[i] {
        if i < last {
          assert lines[..i] == lines[..last][..i];
          assert PassedLines(lines[..last], [])[i] == lines[i];
        }
        assert lines[i] + [] == lines[i];
      }
    }
  }

  /** A comment-free file without the field is kept and "field = value" appended. */
  lemma RewriteKeepsCommentFreeFile(lines: seq<string>, field: string, valueText: string)
    requires forall i :: 0 <= i < |lines| ==> Untouched(lines[i], field)
    ensures RewriteFrom(lines, field, valueText, false, [])
         == Rewritten(lines + [AssignmentLine(field, valueText)])
  {
    PassedLinesUntouched(lines, field);
    RewriteAppendsWhenAbsent(lines, field, valueText);
  }

  /** With no inline comment on the matched line or before it, the rest of
      the file is kept as is. */
  lemma RewriteReplacesOnlyLine(pre: seq<string>, matched: string, post: seq<string>,
                                field: string, valueText: string)
    requires forall i :: 0 <= i < |pre| ==> Untouched(pre[i], field)
    requires !IsCommentOrEmpty(matched) && CommentCharacter !in matched
    requires SplitFieldFromData(matched).Split? && SplitFieldFromData(matched).field == field
    ensures RewriteFrom(pre + [matched] + post, field, valueText, false, [])
         == Rewritten(pre + [AssignmentLine(field, valueText)] + post)
  {
    assert SplitComment(matched) == (matched, []);
    PassedLinesUntouched(pre, field);
    RewriteReplacesFirstMatch(pre, matched, post, field, valueText);
    assert AssignmentLine(field, valueText) + [] == AssignmentLine(field, valueText);
    WithoutComment(post);
  }

  /** A full-line comment after a line with an inline comment gains that
      comment: ["a = 1 # c", "# note"] is written as ["a = 1 # c", "# note# c"]. */
  lemma RewriteCarriesCommentOntoSkippedLine(processed: string, skipped: string, field: string)
    requires PassesUnmatched(processed, field) && !IsCommentOrEmpty(processed)
    requires IsCommentOrEmpty(skipped)
    ensures PassedLines([processed, skipped], []) == [processed, skipped + SplitComment(processed).1]
  {
    assert [processed, skipped][..1] == [processed];
    assert LastComment([processed], []) == LastComment([], SplitComment(processed).1);
  }

  lemma WithoutComment(lines: seq<string>)
    ensures WithComment(lines, []) == lines
  {
    forall i | 0 <= i < |lines| ensures WithComment(lines, [])[i] == lines[i] {
      assert lines[i] + [] == lines[i];
    }
  }

  /** The configuration object: the items by key, the keys by data address,
      and the registered variables themselves (which the items point at). */
  class ConfigFile {
    var configItems: map<string, DataAddress>
    var keyMap: map<DataAddress, string>
    var values: map<DataAddress, ConfigValue>

    /** configItems and keyMap are inverse maps, and every registered
        variable exists. */
    ghost predicate Valid()
      reads this
    {
      values.Keys == keyMap.Keys &&
      (forall k :: k in configItems ==> configItems[k] in keyMap && keyMap[configItems[k]] == k) &&
      (forall a :: a in keyMap ==> keyMap[a] in configItems && configItems[keyMap[a]] == a)
    }

    lemma ValidItemsIn()
      requires Valid()
      ensures ItemsIn(configItems, values)
    {
    }

    constructor ()
      ensures Valid()
      ensures configItems == map[] && keyMap == map[] && values == map[]
    {
      configItems := map[];
      keyMap := map[];
      values := map[];
    }

    /** Registers a variable under a key; both the key and the address must be new. */
    method AddConfigItem(key: string, address: DataAddress, initial: ConfigValue)
      requires Valid()
      requires key !in configItems && address !in keyMap
      modifies this
      ensures Valid()
      ensures configItems == old(configItems)[key := address]
      ensures keyMap == old(keyMap)[address := key]
      ensures values == old(values)[address := initial]
    {
      configItems := configItems[key := address];
      keyMap := keyMap[address := key];
      values := values[address := initial];
    }

    /** The key a registered variable was added under. */
    function GetKey(address: DataAddress): (key: string)
      reads this
      requires Valid() && address in keyMap
      ensures key in configItems && configItems[key] == address
    {
      keyMap[address]
    }

    method ProcessConfigItem(field: string, data: string)
      requires Valid()
      modifies this`values
      ensures Valid()
      ensures values == ProcessItem(configItems, old(values), field, data)
    {
      if field in configItems {
        var address := configItems[field];
        values := values[address := AssignValue(values[address], data)];
      }
    }

    /** Reads the lines of a configuration file into the registered
        variables; `threw` when std::out_of_range escapes the loop. */
    method ReadConfiguration(lines: seq<string>) returns (threw: bool)
      requires Valid()
      modifies this`values
      ensures Valid()
      ensures ReadOutcome(values, threw) == ReadFrom(configItems, old(values), lines)
    {
      var i := 0;
      while i < |lines|
        invariant 0 <= i <= |lines|
        invariant Valid()
        invariant ReadFrom(configItems, old(values), lines) == ReadFrom(configItems, values, lines[i..])
      {
        var line := StripCarriageReturn(lines[i]);
        assert lines[i..][0] == lines[i] && lines[i..][1..] == lines[i + 1..];
        if !IsCommentOrEmpty(line) {
          var text := SplitComment(line).0;
          var split := SplitFieldFromData(text);
          if split.OutOfRange? {
            return true;
          }
          ProcessConfigItem(split.field, split.data);
        }
        i := i + 1;
      }
      return false;
    }

    /** Rewrites one field in the lines of a configuration file. */
    method WriteConfiguration(lines: seq<string>, field: string, valueText: string)
      returns (r: Rewrite)
      ensures r == RewriteFrom(lines, field, valueText, false, [])
    {
      var out: seq<string> := [];
      var written := false;
      var comment: string := [];
      var i := 0;
      while i < |lines|
        invariant 0 <= i <= |lines|
        invariant RewriteFrom(lines, field, valueText, false, [])
               == Prepend(out, RewriteFrom(lines[i..], field, valueText, written, comment))
      {
        var line := lines[i];
        assert lines[i..][0] == line && lines[i..][1..] == lines[i + 1..];
        ghost var step := RewriteLine(line, field, valueText, written, comment);
        if !written && !IsCommentOrEmpty(line) {
          var split := SplitComment(line);
          comment := split.1;
          line := split.0;
          var fields := SplitFieldFromData(line);
          if fields.OutOfRange? {
            return ThrewOutOfRange;
          }
          if fields.field == field {
            line := AssignmentLine(field, valueText);
            written := true;
          }
        }
        assert step == Emit(line + comment, written, comment);
        PrependTwice(out, [line + comment], RewriteFrom(lines[i + 1..], field, valueText, written, comment));
        out := out + [line + comment];
        i := i + 1;
      }
      if !written {
        out := out + [AssignmentLine(field, valueText)];
      }
      return Rewritten(out);
    }
  }
}
