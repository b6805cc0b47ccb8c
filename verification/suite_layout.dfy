/** Where the call of the recorder stands above a suite, and whether the suite is still one. */
module SuiteLayout {
  import opened BranchIds
  import opened RowCode

  // ---------------------------------------------------------------- what is put in is well indented

  // How far a line's indentation reaches: a tab goes on to the next multiple of eight (section 2.1.8 of the
  // Python Language Reference).
  function Width(indent: string): nat {
    if indent == "" then 0
    else
      var w := Width(indent[..|indent| - 1]);
      if indent[|indent| - 1] == '\t' then (w / 8 + 1) * 8 else w + 1
  }

  // Two lines are level, or one is deeper, where they are so whether a tab is taken to reach on or to be one
  // space: where the two differ Python refuses the text.
  predicate IsLevel(a: string, b: string) { Width(a) == Width(b) && |a| == |b| }

  predicate IsDeeper(a: string, b: string) { Width(a) > Width(b) && |a| > |b| }

  lemma {:induction false} WidthOfBlanks(indent: string)
    requires IsBlank(indent)
    ensures Width(indent) >= |indent|
    ensures '\t' !in indent ==> Width(indent) == |indent|
  {
    if indent != "" {
      BlankFront(indent);
      WidthOfBlanks(indent[..|indent| - 1]);
    }
  }

  lemma {:induction false} BlankFront(indent: string)
    requires indent != "" && IsBlank(indent)
    ensures IsBlank(indent[..|indent| - 1]) && (indent[|indent| - 1] == ' ' || indent[|indent| - 1] == '\t')
  {
    if |indent| > 1 {
      BlankFront(indent[1..]);
      assert indent[..|indent| - 1][1..] == indent[1..][..|indent| - 2];
    }
  }

  lemma {:induction false} WidthOfSpaces(n: nat)
    ensures |Spaces(n)| == n && Width(Spaces(n)) == n && '\n' !in Spaces(n)
  {
    if n > 0 {
      WidthOfSpaces(n - 1);
      assert Spaces(n)[..n - 1] == Spaces(n - 1) && Spaces(n)[n - 1] == ' ';
    }
  }

  // Where the text before the suite on its line is blank, the call takes the place of the first statement,
  // which is pushed down behind as many spaces: level with that text exactly where each tab of it widens it
  // by one, and the same exactly where there is no tab.
  lemma {:induction false} FirstStatementStaysLevel(header: string)
    requires IsBlank(header)
    ensures Lead(header) == ""
    ensures IsLevel(Pad(header), header) <==> Width(header) == |header|
    ensures Pad(header) == header <==> '\t' !in header
  {
    WidthOfSpaces(|header|);
    SpacesOnly(header, |header|);
  }

  // Where it is not, the call and the suite are put on lines of their own, both behind the same spaces. They
  // are inside the statement, whose own line is indented by `indent`, exactly
  // where the blanks before `header`, and four more, reach further than `indent` does.
  lemma {:induction false} MovedSuiteIsInside(indent: string, header: string)
    requires IsBlank(indent) && !IsBlank(header)
    ensures Lead(header) == "\n" + Pad(header)
    ensures IsDeeper(Pad(header), indent) <==> LeadingBlanks(header) + INDENT > Width(indent)
  {
    WidthOfSpaces(LeadingBlanks(header) + INDENT);
    WidthOfBlanks(indent);
  }

  // A header all on one line begins with the statement's own indentation. Then only a tab can go wrong.
  lemma {:induction false} OneLineHeadersAreSafeWithoutTabs(indent: string, rest: string)
    requires IsBlank(indent) && rest != "" && rest[0] != ' ' && rest[0] != '\t'
    ensures !IsBlank(indent + rest)
    ensures IsDeeper(Pad(indent + rest), indent) <==> |indent| + INDENT > Width(indent)
    ensures '\t' !in indent ==> IsDeeper(Pad(indent + rest), indent)
  {
    BlanksBefore(indent, rest);
    MovedSuiteIsInside(indent, indent + rest);
    WidthOfBlanks(indent);
  }

  lemma {:induction false} BlanksBefore(indent: string, rest: string)
    requires IsBlank(indent) && rest != "" && rest[0] != ' ' && rest[0] != '\t'
    ensures LeadingBlanks(indent + rest) == |indent| && !IsBlank(indent + rest)
  {
    if indent == "" {
      assert indent + rest == rest;
    } else {
      assert (indent + rest)[0] == indent[0] && (indent + rest)[1..] == indent[1..] + rest;
      BlanksBefore(indent[1..], rest);
    }
  }

  // The lines these lemmas speak of are the ones the rewritten text has.
  lemma {:induction false} WhereTheCallStands(s: Suite, before: string, id: Id)
    ensures var header, suite := LineBefore(before + s.gap), InstrumentSuite(s, before, id);
      && LineBefore(before + suite.gap) == (if IsBlank(header) then header else Pad(header))
      && LineBefore(before + suite.gap + StmtText(suite.block.first)) == Pad(header)
  {
    var header, suite := LineBefore(before + s.gap), InstrumentSuite(s, before, id);
    TopOfSuite(s, before, id, header);
    LinesPutIn(before, s.gap, header, suite.gap, StmtText(suite.block.first), RecordText(id));
  }

  lemma {:induction false} TopOfSuite(s: Suite, before: string, id: Id, header: string)
    requires header == LineBefore(before + s.gap)
    ensures var suite := InstrumentSuite(s, before, id);
      && suite.gap == s.gap + Lead(header) && suite.block.More?
      && StmtText(suite.block.first) == RecordText(id) + ("\n" + Pad(header))
  {
    CallText(RecordText(id), Pad(header));
    assert ExprText(Record(id)) == RecordText(id);
  }

  lemma {:induction false} CallText(call: string, pad: string)
    ensures "" + call + ("\n" + pad) == call + ("\n" + pad)
  {
    assert "" + call == call;
  }

  lemma {:induction false} LinesPutIn(before: string, gap: string, header: string, gap': string, text: string,
                                      call: string)
    requires header == LineBefore(before + gap)
    requires gap' == gap + Lead(header) && text == call + ("\n" + Pad(header))
    ensures LineBefore(before + gap') == if IsBlank(header) then header else Pad(header)
    ensures LineBefore(before + gap' + text) == Pad(header)
  {
    WidthOfSpaces(if IsBlank(header) then |header| else LeadingBlanks(header) + INDENT);
    AfterTheCall(before + gap', call, Pad(header));
    if IsBlank(header) {
      assert gap' == gap;
    } else {
      AfterTheCall(before, gap, Pad(header));
    }
  }

  lemma {:induction false} AfterTheCall(before: string, call: string, pad: string)
    requires '\n' !in pad
    ensures LineBefore(before + (call + ("\n" + pad))) == pad
  {
    LastLine(before + call, pad);
    assert before + (call + ("\n" + pad)) == (before + call) + ("\n" + pad);
  }

  lemma {:induction false} LastLine(before: string, line: string)
    requires '\n' !in line
    ensures LineBefore(before + ("\n" + line)) == line
  {
    var text := before + ("\n" + line);
    if line != "" {
      var n := |line| - 1;
      assert text[..|text| - 1] == before + ("\n" + line[..n]) && text[|text| - 1] == line[n];
      LastLine(before, line[..n]);
    }
  }

  lemma {:induction false} SpacesOnly(header: string, n: nat)
    requires IsBlank(header) && n <= |header|
    ensures Spaces(n) == header[..n] <==> '\t' !in header[..n]
    ensures |Spaces(n)| == n
  {
    if n > 0 {
      SpacesOnly(header, n - 1);
      BlankAt(header, n - 1);
      assert header[..n] == header[..n - 1] + [header[n - 1]];
      assert Spaces(n)[..n - 1] == Spaces(n - 1) && Spaces(n)[n - 1] == ' ';
    }
    assert header[..|header|] == header;
  }

  lemma {:induction false} BlankAt(text: string, i: nat)
    requires IsBlank(text) && i < |text|
    ensures text[i] == ' ' || text[i] == '\t'
  {
    if i > 0 { BlankAt(text[1..], i - 1); }
  }

  // ---------------------------------------------------------------- where a statement begins

  // On the logical line of what stands before it, or on one of its own, indented so.
  datatype Start = SameLine | OwnLine(indent: string)

  // Nothing but blanks, comments, line ends, and lines joined by a backslash. It does not end in a comment.
  predicate IsLayout(text: string, comment: bool) {
    if text == "" then !comment
    else if comment then IsLayout(text[1..], text[0] != '\n')
    else if IsJoin(text) then IsLayout(text[2..], false)
    else if text[0] == '#' then IsLayout(text[1..], true)
    else (text[0] == ' ' || text[0] == '\t' || text[0] == '\n') && IsLayout(text[1..], false)
  }

  // A backslash joins its line to the next, but in a comment.
  predicate IsJoin(text: string) { |text| > 1 && text[0] == '\\' && text[1] == '\n' }

  // Where a statement begins after such a text. Its indentation is what stands before the first backslash
  // of its line (section 2.1.8 of the Python Language Reference).
  function StartAfter(text: string, comment: bool, joined: bool, so: Start): Start {
    if text == "" then so
    else if comment then
      if text[0] == '\n' then StartAfter(text[1..], false, false, OwnLine(""))
      else StartAfter(text[1..], true, joined, so)
    else if IsJoin(text) then StartAfter(text[2..], false, true, so)
    else if text[0] == '#' then StartAfter(text[1..], true, joined, so)
    else if text[0] == '\n' then StartAfter(text[1..], false, false, OwnLine(""))
    else if so.OwnLine? && !joined then StartAfter(text[1..], false, false, OwnLine(so.indent + [text[0]]))
    else StartAfter(text[1..], false, joined, so)
  }

  // What stands between a header's colon and the suite.
  function AfterColon(gap: string): string {
    if gap == "" then "" else if gap[0] == ':' then gap[1..] else AfterColon(gap[1..])
  }

  function StartOf(s: Suite): Start { StartAfter(AfterColon(s.gap), false, false, SameLine) }

  predicate IsLaidOut(s: Suite) { ':' in s.gap && IsLayout(AfterColon(s.gap), false) }

  // A suite whose first statement is on a line of its own, inside the statement indented by `indent`, and
  // whose second stands level with it.
  predicate Stands(s: Suite, indent: string) {
    && IsLaidOut(s) && s.block.More? && s.block.first.Simple? && IsLayout(s.block.first.tail, false)
    && var first, second := StartOf(s), StartAfter(s.block.first.tail, false, false, SameLine);
    && first.OwnLine? && IsDeeper(first.indent, indent)
    && second.OwnLine? && IsLevel(second.indent, first.indent)
  }

  // As authored: on the header's line, or on lines of its own inside the statement.
  predicate IsInside(s: Suite, indent: string) {
    IsLaidOut(s) && (StartOf(s).OwnLine? ==> IsDeeper(StartOf(s).indent, indent))
  }

  // The guard the code would have to ask: what it looks at is `header` alone.
  predicate IsKept(s: Suite, header: string, indent: string) {
    match StartOf(s)
    case OwnLine(own) => |header| == |own| == Width(own)
    case SameLine => !IsBlank(header) && LeadingBlanks(header) + INDENT > Width(indent)
  }

  // ---------------------------------------------------------------- what the layout says of the header

  // After a layout text the line is blank, unless the layout left it as it was but for blanks.
  lemma {:induction false} LineAfterLayout(before: string, text: string, comment: bool)
    requires IsLayout(text, comment)
    ensures '\n' in text ==> IsBlank(LineBefore(before + text))
    ensures '\n' !in text ==> !comment && IsBlank(text) && LineBefore(before + text) == LineBefore(before) + text
    decreases |text|
  {
    if text == "" {
      assert before + text == before;
    } else {
      var n := if !comment && IsJoin(text) then 2 else 1;
      LineAfterLayout(before + text[..n], text[n..], if comment then text[0] != '\n' else n == 1 && text[0] == '#');
      LayoutGoesOn(before, text, text[..n], text[n..]);
    }
  }

  lemma {:induction false} LayoutGoesOn(before: string, text: string, head: string, rest: string)
    requires text == head + rest && (|head| == 1 || (|head| == 2 && head[1] == '\n'))
    ensures before + text == before + head + rest
    ensures '\n' in text <==> '\n' in head || '\n' in rest
    ensures LineBefore(before + head) + rest ==
            if head[|head| - 1] == '\n' then rest else LineBefore(before) + text
  {
    LineOfOneMore(before, head);
    assert "" + rest == rest;
  }

  lemma {:induction false} LineOfOneMore(before: string, more: string)
    requires more != ""
    ensures more[|more| - 1] == '\n' ==> LineBefore(before + more) == ""
    ensures |more| == 1 && more[0] != '\n' ==> LineBefore(before + more) == LineBefore(before) + more
  {
    var text := before + more;
    assert text[|text| - 1] == more[|more| - 1];
    if |more| == 1 { assert text[..|text| - 1] == before; }
  }

  // On a line of its own there was a line end.
  lemma {:induction false} OwnLineHasAnEnd(text: string, comment: bool, joined: bool, so: Start)
    requires '\n' !in text
    ensures StartAfter(text, comment, joined, so).OwnLine? <==> so.OwnLine?
    decreases |text|
  {
    if text != "" {
      assert text == [text[0]] + text[1..];
      assert forall i :: 0 <= i < |text| ==> text[i] in text;
      if comment {
        OwnLineHasAnEnd(text[1..], true, joined, so);
      } else if text[0] == '#' {
        OwnLineHasAnEnd(text[1..], true, joined, so);
      } else if so.OwnLine? && !joined {
        OwnLineHasAnEnd(text[1..], false, false, OwnLine(so.indent + [text[0]]));
      } else {
        OwnLineHasAnEnd(text[1..], false, joined, so);
      }
    }
  }

  // With no backslash in it, what a statement's own line begins with is the text before it on its line.
  lemma {:induction false} UnjoinedStart(before: string, text: string, comment: bool, so: Start)
    requires IsLayout(text, comment) && '\\' !in text
    requires so.OwnLine? && !comment ==> so.indent == LineBefore(before)
    ensures var start := StartAfter(text, comment, false, so);
      start.OwnLine? ==> start.indent == LineBefore(before + text)
    decreases |text|
  {
    if text == "" {
      assert before + text == before;
    } else {
      var c, rest := text[0], text[1..];
      assert text == [c] + rest && before + text == before + [c] + rest;
      LineOfOneMore(before, [c]);
      if c == '\n' {
        UnjoinedStart(before + [c], rest, false, OwnLine(""));
      } else if comment || c == '#' {
        UnjoinedStart(before + [c], rest, true, so);
      } else {
        UnjoinedStart(before + [c], rest, false, if so.OwnLine? then OwnLine(so.indent + [c]) else so);
      }
    }
  }

  // ---------------------------------------------------------------- what is put in

  lemma {:induction false} AfterSpaces(n: nat, so: string)
    ensures IsLayout(Spaces(n), false)
    ensures StartAfter(Spaces(n), false, false, OwnLine(so)) == OwnLine(so + Spaces(n))
  {
    if n == 0 {
      assert so + Spaces(0) == so;
    } else {
      SpacesFromTheFront(n);
      AfterSpaces(n - 1, so + " ");
      assert so + " " + Spaces(n - 1) == so + Spaces(n);
    }
  }

  lemma {:induction false} SpacesFromTheFront(n: nat)
    requires n > 0
    ensures Spaces(n) == " " + Spaces(n - 1) && Spaces(n)[0] == ' ' && Spaces(n)[1..] == Spaces(n - 1)
  {
    if n > 1 { SpacesFromTheFront(n - 1); }
  }

  // A line end and spaces after a layout text begin a line indented by them.
  lemma {:induction false} AfterANewLine(text: string, comment: bool, joined: bool, so: Start, n: nat)
    requires IsLayout(text, comment)
    ensures IsLayout(text + ("\n" + Spaces(n)), comment)
    ensures StartAfter(text + ("\n" + Spaces(n)), comment, joined, so) == OwnLine(Spaces(n))
    decreases |text|
  {
    var more := "\n" + Spaces(n);
    if text == "" {
      assert text + more == more && more[1..] == Spaces(n);
      AfterSpaces(n, "");
      assert "" + Spaces(n) == Spaces(n);
    } else {
      var k := if !comment && IsJoin(text) then 2 else 1;
      assert (text + more)[k..] == text[k..] + more && (text + more)[0] == text[0];
      assert !comment && text[0] == '\\' ==> IsJoin(text) && IsJoin(text + more);
      var c := text[0];
      if comment {
        var ends := c == '\n';
        AfterANewLine(text[1..], !ends, !ends && joined, if ends then OwnLine("") else so, n);
      } else if k == 2 {
        AfterANewLine(text[2..], false, true, so, n);
      } else if c == '#' {
        AfterANewLine(text[1..], true, joined, so, n);
      } else if c == '\n' {
        AfterANewLine(text[1..], false, false, OwnLine(""), n);
      } else if so.OwnLine? && !joined {
        AfterANewLine(text[1..], false, false, OwnLine(so.indent + [c]), n);
      } else {
        AfterANewLine(text[1..], false, joined, so, n);
      }
    }
  }

  lemma {:induction false} ColonStaysFirst(gap: string, more: string)
    requires ':' in gap
    ensures ':' in gap + more && AfterColon(gap + more) == AfterColon(gap) + more
  {
    assert (gap + more)[0] == gap[0] && (gap + more)[1..] == gap[1..] + more;
    if gap[0] != ':' {
      assert gap == [gap[0]] + gap[1..];
      ColonStaysFirst(gap[1..], more);
    }
  }

  lemma {:induction false} GapFromItsColon(gap: string) returns (front: string)
    requires ':' in gap
    ensures gap == front + AfterColon(gap)
  {
    if gap[0] == ':' {
      front := ":";
    } else {
      assert gap == [gap[0]] + gap[1..];
      var rest := GapFromItsColon(gap[1..]);
      front := [gap[0]] + rest;
    }
  }

  lemma {:induction false} HeaderOfALaidOutSuite(s: Suite, before: string)
    requires IsLaidOut(s)
    ensures StartOf(s).OwnLine? ==> IsBlank(LineBefore(before + s.gap))
    ensures StartOf(s).OwnLine? && '\\' !in AfterColon(s.gap) ==> StartOf(s).indent == LineBefore(before + s.gap)
  {
    var text := AfterColon(s.gap);
    var front := GapFromItsColon(s.gap);
    assert before + s.gap == before + front + text;
    LineAfterLayout(before + front, text, false);
    if '\n' !in text { OwnLineHasAnEnd(text, false, false, SameLine); }
    if '\\' !in text { UnjoinedStart(before + front, text, false, SameLine); }
  }

  // ---------------------------------------------------------------- main results

  // Rewritten, a suite is one exactly where: it stood on lines of its own, and the text before it on its
  // line is as long and as wide as its indentation; or it began on its header's logical line, the text
  // before it is not blank, and the blanks that begin that text, and four more, reach further than the
  // statement's indentation. Where it was on lines of its own the call takes its place.
  lemma {:induction false} RewrittenSuitesStandExactly(s: Suite, before: string, id: Id, indent: string)
    requires IsInside(s, indent) && IsBlank(indent)
    ensures var header, suite := LineBefore(before + s.gap), InstrumentSuite(s, before, id);
      && (Stands(suite, indent) <==> IsKept(s, header, indent))
      && (StartOf(s).OwnLine? ==> StartOf(suite) == StartOf(s))
  {
    var header, suite := LineBefore(before + s.gap), InstrumentSuite(s, before, id);
    HeaderOfALaidOutSuite(s, before);
    SecondOfTheSuite(if IsBlank(header) then |header| else LeadingBlanks(header) + INDENT);
    StandsByItsFirst(suite, Pad(header), indent);
    if IsBlank(header) {
      assert suite.gap == s.gap;
      PutInPlace(s, suite, header, indent);
    } else {
      MovedDown(s, suite, header, indent);
    }
  }

  // The second statement begins a line behind `pad`.
  lemma {:induction false} StandsByItsFirst(suite: Suite, pad: string, indent: string)
    requires suite.block.More? && suite.block.first.Simple? && suite.block.first.tail == "\n" + pad
    requires IsLayout("\n" + pad, false) && StartAfter("\n" + pad, false, false, SameLine) == OwnLine(pad)
    ensures Stands(suite, indent) <==>
        IsLaidOut(suite) && StartOf(suite).OwnLine? && IsDeeper(StartOf(suite).indent, indent)
        && IsLevel(pad, StartOf(suite).indent)
  {
  }

  lemma {:induction false} PutInPlace(s: Suite, suite: Suite, header: string, indent: string)
    requires IsInside(s, indent) && IsBlank(header) && suite.gap == s.gap
    ensures StartOf(suite) == StartOf(s)
    ensures IsKept(s, header, indent) <==>
        IsLaidOut(suite) && StartOf(suite).OwnLine? && IsDeeper(StartOf(suite).indent, indent)
        && IsLevel(Pad(header), StartOf(suite).indent)
  {
    WidthOfSpaces(|header|);
  }

  lemma {:induction false} MovedDown(s: Suite, suite: Suite, header: string, indent: string)
    requires IsInside(s, indent) && IsBlank(indent) && !IsBlank(header) && StartOf(s).SameLine?
    requires suite.gap == s.gap + Lead(header)
    ensures IsLaidOut(suite) && StartOf(suite) == OwnLine(Pad(header))
    ensures IsDeeper(Pad(header), indent) <==> IsKept(s, header, indent)
  {
    ColonStaysFirst(s.gap, Lead(header));
    AfterANewLine(AfterColon(s.gap), false, false, SameLine, LeadingBlanks(header) + INDENT);
    MovedSuiteIsInside(indent, header);
  }

  lemma {:induction false} SecondOfTheSuite(n: nat)
    ensures IsLayout("\n" + Spaces(n), false)
    ensures StartAfter("\n" + Spaces(n), false, false, SameLine) == OwnLine(Spaces(n))
  {
    AfterANewLine("", false, false, SameLine, n);
    assert "" + ("\n" + Spaces(n)) == "\n" + Spaces(n);
  }

  // Without tabs, without backslashes, and with its header on one line, every suite is kept.
  lemma {:induction false} PlainSuitesAreKept(s: Suite, before: string, id: Id, indent: string, rest: string)
    requires IsInside(s, indent) && IsBlank(indent) && '\t' !in indent
    requires '\\' !in AfterColon(s.gap) && '\t' !in LineBefore(before + s.gap)
    requires StartOf(s).SameLine? ==>
        rest != "" && rest[0] != ' ' && rest[0] != '\t' && LineBefore(before + s.gap) == indent + rest
    ensures Stands(InstrumentSuite(s, before, id), indent)
  {
    RewrittenSuitesStandExactly(s, before, id, indent);
    HeaderOfALaidOutSuite(s, before);
    if StartOf(s).OwnLine? {
      WidthOfBlanks(LineBefore(before + s.gap));
    } else {
      BlanksBefore(indent, rest);
      WidthOfBlanks(indent);
    }
  }

  // ---------------------------------------------------------------- suites that are lost

  //     if x: \
  //         y = 1
  // Whatever the body and however far in it stands, the call becomes the whole suite: the first statement is
  // left on a line of its own below it.
  lemma {:induction false} ABackslashLosesTheSuite(block: Block, n: nat, before: string, id: Id, indent: string)
    requires IsBlank(indent)
    ensures var s := Suite(": \\\n" + Spaces(n), block);
      && IsInside(s, indent) && StartOf(s) == SameLine && IsBlank(LineBefore(before + s.gap))
      && InstrumentSuite(s, before, id).gap == s.gap
      && !Stands(InstrumentSuite(s, before, id), indent)
  {
    var s := Suite(": \\\n" + Spaces(n), block);
    AJoinedGap(s.gap, n);
    BlankAfterAJoin(before, s.gap, n);
    RewrittenSuitesStandExactly(s, before, id, indent);
  }

  lemma {:induction false} AJoinedGap(gap: string, n: nat)
    requires gap == ": \\\n" + Spaces(n)
    ensures ':' in gap && IsLayout(AfterColon(gap), false)
    ensures StartAfter(AfterColon(gap), false, false, SameLine) == SameLine
  {
    var join := "\\\n" + Spaces(n);
    assert gap[0] == ':' && AfterColon(gap) == " " + join;
    assert (" " + join)[1..] == join && IsJoin(join) && join[2..] == Spaces(n);
    AfterSpaces(n, "");
    SpacesGoOn(n);
    assert IsLayout(join, false) && StartAfter(join, false, false, SameLine) == SameLine;
  }

  lemma {:induction false} BlankAfterAJoin(before: string, gap: string, n: nat)
    requires gap == ": \\\n" + Spaces(n)
    ensures IsBlank(LineBefore(before + gap))
  {
    WidthOfSpaces(n);
    AfterTheCall(before, ": \\", Spaces(n));
    assert gap == ": \\" + ("\n" + Spaces(n));
    SpacesAreBlank(n);
  }

  lemma {:induction false} SpacesGoOn(n: nat)
    ensures StartAfter(Spaces(n), false, true, SameLine) == SameLine
  {
    if n > 0 {
      SpacesFromTheFront(n);
      SpacesGoOn(n - 1);
    }
  }

  lemma {:induction false} SpacesAreBlank(n: nat)
    ensures IsBlank(Spaces(n))
  {
    if n > 0 {
      SpacesFromTheFront(n);
      SpacesAreBlank(n - 1);
    }
  }

  //     if (a and
  // b): y = 1
  lemma {:induction false} AHeaderOnTwoLinesLosesItsSuite(block: Block, id: Id)
    ensures var s, before := Suite(": ", block), "    if (a and\nb)";
      && IsInside(s, "    ") && !Stands(InstrumentSuite(s, before, id), "    ")
      && Pad(LineBefore(before + s.gap)) == "    "
  {
    var s, before := Suite(": ", block), "    if (a and\nb)";
    OnTheHeadersLine(s);
    assert before + s.gap == "    if (a and" + ("\n" + "b): ");
    LastLine("    if (a and", "b): ");
    assert !IsBlank("b): ") && LeadingBlanks("b): ") == 0;
    FourSpaces();
    WidthOfSpaces(4);
    SpacesAreBlank(4);
    RewrittenSuitesStandExactly(s, before, id, "    ");
  }

  // A tab, and then: if x: y = 1
  lemma {:induction false} ATabbedHeaderLosesItsSuite(block: Block, id: Id)
    ensures var s, before := Suite(": ", block), "\tif x";
      && IsInside(s, "\t") && !Stands(InstrumentSuite(s, before, id), "\t")
      && Pad(LineBefore(before + s.gap)) == Spaces(5)
  {
    var s, before := Suite(": ", block), "\tif x";
    OnTheHeadersLine(s);
    TheTabbedHeader(before + s.gap);
    RewrittenSuitesStandExactly(s, before, id, "\t");
  }

  lemma {:induction false} TheTabbedHeader(header: string)
    requires header == "\tif x: "
    ensures LineBefore(header) == header && !IsBlank(header) && LeadingBlanks(header) == 1
    ensures IsBlank("\t") && Width("\t") == 8
  {
    assert "\t"[1..] == "" && "\t"[..0] == "";
    LastLineOfAll(header);
    assert header == "\t" + "if x: ";
    BlanksBefore("\t", "if x: ");
  }

  lemma {:induction false} OnTheHeadersLine(s: Suite)
    requires s.gap == ": "
    ensures IsLaidOut(s) && StartOf(s) == SameLine
  {
    assert s.gap[0] == ':' && s.gap[1..] == " " && " "[1..] == "";
  }

  lemma {:induction false} LastLineOfAll(text: string)
    requires '\n' !in text
    ensures LineBefore(text) == text
  {
    if text != "" {
      var n := |text| - 1;
      assert text == text[..n] + [text[n]];
      LastLineOfAll(text[..n]);
    }
  }

  lemma {:induction false} FourSpaces()
    ensures Spaces(4) == "    "
  {
    assert Spaces(1) == " " && Spaces(2) == "  " && Spaces(3) == "   ";
  }
}
