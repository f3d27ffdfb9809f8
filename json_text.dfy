/** The hand-written JSON text writer used by the pack dump: a text sink,
    an indentation depth and a pending-comma flag. Each writer call is
    described by its effect on (text, indent, needComma). */
module JsonText {
  import opened Base
  import opened Numbers

  /** What the model takes from the platform: the text writer's line
      terminator and the round-trip ("R") formatting of binary32 and
      binary64 values, given by their bit patterns. */
  datatype Layout = Layout(newLine: string, formatSingle: nat -> string, formatDouble: nat -> string)

  datatype WriterState = WriterState(text: string, indent: int, needComma: bool)

  /** The public calls of the writer. WriteNumber stands for its int, uint,
      long and ulong overloads, which all print the invariant decimal text. */
  datatype Call =
    | BeginObject | EndObject | BeginArray | EndArray
    | PropertyName(name: string)
    | WriteString(value: Option<string>)
    | WriteNull
    | WriteBool(b: bool)
    | WriteNumber(n: int)
    | WriteRawSingle(bits: nat)
    | WriteRawDouble(bits: nat)

  /** `s.Replace(c, repl)` for a one-character pattern. */
  function ReplaceChar(s: string, c: char, repl: string): string
  {
    if s == [] then [] else (if s[0] == c then repl else [s[0]]) + ReplaceChar(s[1..], c, repl)
  }

  /** Escape as written: five replacements applied one after the other. */
  function Escape(s: string): string
  {
    ReplaceChar(ReplaceChar(ReplaceChar(ReplaceChar(ReplaceChar(s,
      '\\', "\\\\"), '"', "\\\""), '\r', "\\r"), '\n', "\\n"), '\t', "\\t")
  }

  /** The escape of one character. */
  function EscapeChar(c: char): string
  {
    if c == '\\' then "\\\\"
    else if c == '"' then "\\\""
    else if c == '\r' then "\\r"
    else if c == '\n' then "\\n"
    else if c == '\t' then "\\t"
    else [c]
  }

  /** Escaping character by character, the last character last. */
  function EscapeEach(s: string): string
  {
    if s == [] then [] else EscapeEach(s[..|s| - 1]) + EscapeChar(s[|s| - 1])
  }

  lemma {:induction false} EscapeEachAppend(a: string, b: string)
    ensures EscapeEach(a + b) == EscapeEach(a) + EscapeEach(b)
    decreases |b|
  {
    if b != [] {
      var b' := b[..|b| - 1];
      assert (a + b)[..|a + b| - 1] == a + b';
      EscapeEachAppend(a, b');
    } else {
      assert a + b == a;
    }
  }

  /** A character Escape rewrites. */
  predicate Special(c: char)
  {
    c in {'\\', '"', '\r', '\n', '\t'}
  }

  /** Text without special characters is quoted as it is. */
  lemma {:induction false} QuotedPlain(s: string)
    requires forall i | 0 <= i < |s| :: !Special(s[i])
    ensures Quoted(s) == "\"" + s + "\""
  {
    EscapeEachPlain(s);
  }

  lemma {:induction false} EscapeEachPlain(s: string)
    requires forall i | 0 <= i < |s| :: !Special(s[i])
    ensures EscapeEach(s) == s
  {
    if s != [] {
      EscapeEachPlain(s[..|s| - 1]);
      assert s == s[..|s| - 1] + [s[|s| - 1]];
    }
  }

  /** The first character's escape comes first. */
  lemma {:induction false} EscapeEachFront(s: string)
    requires s != []
    ensures EscapeEach(s) == EscapeChar(s[0]) + EscapeEach(s[1..])
  {
    var head := [s[0]];
    assert s == head + s[1..];
    EscapeEachAppend(head, s[1..]);
    assert head[..|head| - 1] == [];
    assert EscapeEach(head) == EscapeEach([]) + EscapeChar(s[0]);
  }

  lemma {:induction false} ReplaceCharAppend(a: string, b: string, c: char, repl: string)
    ensures ReplaceChar(a + b, c, repl) == ReplaceChar(a, c, repl) + ReplaceChar(b, c, repl)
  {
    if a != [] {
      assert (a + b)[1..] == a[1..] + b;
      ReplaceCharAppend(a[1..], b, c, repl);
    } else {
      assert a + b == b;
    }
  }

  lemma EscapeAppend(a: string, b: string)
    ensures Escape(a + b) == Escape(a) + Escape(b)
  {
    ReplaceCharAppend(a, b, '\\', "\\\\");
    var a1, b1 := ReplaceChar(a, '\\', "\\\\"), ReplaceChar(b, '\\', "\\\\");
    ReplaceCharAppend(a1, b1, '"', "\\\"");
    var a2, b2 := ReplaceChar(a1, '"', "\\\""), ReplaceChar(b1, '"', "\\\"");
    ReplaceCharAppend(a2, b2, '\r', "\\r");
    var a3, b3 := ReplaceChar(a2, '\r', "\\r"), ReplaceChar(b2, '\r', "\\r");
    ReplaceCharAppend(a3, b3, '\n', "\\n");
    var a4, b4 := ReplaceChar(a3, '\n', "\\n"), ReplaceChar(b3, '\n', "\\n");
    ReplaceCharAppend(a4, b4, '\t', "\\t");
  }

  /** A string none of whose characters is the pattern is left as it is. */
  lemma {:induction false} ReplaceAbsent(s: string, c: char, repl: string)
    requires c !in s
    ensures ReplaceChar(s, c, repl) == s
  {
    if s != [] {
      ReplaceAbsent(s[1..], c, repl);
    }
  }

  lemma ReplaceOne(x: char, c: char, repl: string)
    ensures ReplaceChar([x], c, repl) == if x == c then repl else [x]
  {
    assert [x][1..] == [];
  }

  lemma EscapeOne(c: char)
    ensures Escape([c]) == EscapeChar(c)
  {
    ReplaceOne(c, '\\', "\\\\");
    var s1 := ReplaceChar([c], '\\', "\\\\");
    if c == '\\' {
      ReplaceAbsent(s1, '"', "\\\"");
      ReplaceAbsent(s1, '\r', "\\r");
      ReplaceAbsent(s1, '\n', "\\n");
      ReplaceAbsent(s1, '\t', "\\t");
    } else {
      ReplaceOne(c, '"', "\\\"");
      var s2 := ReplaceChar(s1, '"', "\\\"");
      if c == '"' {
        ReplaceAbsent(s2, '\r', "\\r");
        ReplaceAbsent(s2, '\n', "\\n");
        ReplaceAbsent(s2, '\t', "\\t");
      } else {
        ReplaceOne(c, '\r', "\\r");
        var s3 := ReplaceChar(s2, '\r', "\\r");
        if c == '\r' {
          ReplaceAbsent(s3, '\n', "\\n");
          ReplaceAbsent(s3, '\t', "\\t");
        } else {
          ReplaceOne(c, '\n', "\\n");
          var s4 := ReplaceChar(s3, '\n', "\\n");
          if c == '\n' {
            ReplaceAbsent(s4, '\t', "\\t");
          } else {
            ReplaceOne(c, '\t', "\\t");
          }
        }
      }
    }
  }

  /** The replacement chain escapes each character on its own: no
      replacement inserts a character a later one would rewrite. */
  lemma {:induction false} EscapeIsPerCharacter(s: string)
    ensures Escape(s) == EscapeEach(s)
  {
    if s != [] {
      var init := s[..|s| - 1];
      assert s == init + [s[|s| - 1]];
      EscapeAppend(init, [s[|s| - 1]]);
      EscapeOne(s[|s| - 1]);
      EscapeIsPerCharacter(init);
    }
  }

  /** Reading an escaped string back: a backslash and the letter after it
      stand for one character. */
  function Unescape(t: string): Option<string>
  {
    if t == [] then Some([])
    else if t[0] == '\\' then
      if |t| < 2 then None
      else
        var c := if t[1] == 'r' then '\r' else if t[1] == 'n' then '\n' else if t[1] == 't' then '\t' else t[1];
        var rest := Unescape(t[2..]);
        if rest.None? then None else Some([c] + rest.value)
    else
      var rest := Unescape(t[1..]);
      if rest.None? then None else Some([t[0]] + rest.value)
  }

  /** Escaping loses nothing: distinct strings escape to distinct texts. */
  lemma {:induction false} UnescapeEscape(s: string)
    ensures Unescape(Escape(s)) == Some(s)
  {
    EscapeIsPerCharacter(s);
    UnescapeEach(s);
  }

  lemma {:induction false} UnescapeEach(s: string)
    ensures Unescape(EscapeEach(s)) == Some(s)
  {
    if s != [] {
      UnescapeEach(s[1..]);
      EscapeEachFront(s);
      UnescapeStep(s[0], EscapeEach(s[1..]));
      assert s == [s[0]] + s[1..];
    }
  }

  /** Unescape reads one escaped character and goes on with the rest. */
  lemma UnescapeStep(c: char, rest: string)
    ensures Unescape(EscapeChar(c) + rest)
         == if Unescape(rest).None? then None else Some([c] + Unescape(rest).value)
  {
    var e := EscapeChar(c);
    var t := e + rest;
    if c in {'\\', '"', '\r', '\n', '\t'} {
      assert |e| == 2 && e[0] == '\\';
      assert t[0] == '\\' && t[1] == e[1];
      assert t[2..] == rest;
    } else {
      assert e == [c];
      assert t[0] == c && t[1..] == rest;
    }
  }

  function CountSpecial(s: string): nat
  {
    if s == [] then 0
    else (if s[0] in {'\\', '"', '\r', '\n', '\t'} then 1 else 0) + CountSpecial(s[1..])
  }

  /** Escaping adds one backslash per special character and nothing else;
      the result holds no raw carriage return, line feed or tab. */
  lemma {:induction false} EscapeShape(s: string)
    ensures |Escape(s)| == |s| + CountSpecial(s)
    ensures forall i :: 0 <= i < |Escape(s)| ==> Escape(s)[i] !in {'\r', '\n', '\t'}
  {
    EscapeIsPerCharacter(s);
    EscapeEachShape(s);
  }

  lemma {:induction false} EscapeEachShape(s: string)
    ensures |EscapeEach(s)| == |s| + CountSpecial(s)
    ensures forall i :: 0 <= i < |EscapeEach(s)| ==> EscapeEach(s)[i] !in {'\r', '\n', '\t'}
  {
    if s != [] {
      EscapeEachShape(s[1..]);
      EscapeEachFront(s);
      var e := EscapeChar(s[0]);
      assert EscapeEach(s) == e + EscapeEach(s[1..]);
      forall i | 0 <= i < |EscapeEach(s)|
        ensures EscapeEach(s)[i] !in {'\r', '\n', '\t'}
      {
        if i >= |e| {
          assert EscapeEach(s)[i] == EscapeEach(s[1..])[i - |e|];
        }
      }
    }
  }

  function Quoted(s: string): string
  {
    "\"" + EscapeEach(s) + "\""
  }

  function Spaces(n: int): (r: string)
    ensures |r| == if n <= 0 then 0 else n
  {
    if n <= 0 then "" else Spaces(n - 1) + " "
  }

  /** WriteCommaIfNeeded: a pending comma is written as ", " and cleared. */
  function CommaIfNeeded(s: WriterState): (r: WriterState)
    ensures r.indent == s.indent && !r.needComma
    ensures r.text == s.text + (if s.needComma then ", " else "")
  {
    if s.needComma then WriterState(s.text + ", ", s.indent, false) else s
  }

  /** A scalar: pending comma, its text, then a comma is pending. */
  function Scalar(s: WriterState, token: string): WriterState
  {
    var t := CommaIfNeeded(s);
    WriterState(t.text + token, t.indent, true)
  }

  /** What WritePropertyName writes before the name: the pending comma, a
      new line and the indentation (two spaces per level, two levels more
      than the depth). */
  function LineStart(nl: string, s: WriterState): string
  {
    (if s.needComma then "," else "") + nl + Spaces((s.indent + 2) * 2)
  }

  /** WritePropertyName as it should be: the line start, the quoted name
      and ": ". The comma is written once. */
  function PropertyNameText(nl: string, s: WriterState, name: string): string
  {
    LineStart(nl, s) + Quoted(name) + ": "
  }

  /** WritePropertyName as written: its WriteString(name) sees the pending
      comma a second time and writes ", " after the indentation. */
  function PropertyNameTextAsWritten(nl: string, s: WriterState, name: string): string
  {
    LineStart(nl, s) + (if s.needComma then ", " else "") + Quoted(name) + ": "
  }

  lemma Regroup(a: string, b: string, c: string, d: string)
    ensures a + b + c + d == a + (b + c + d)
  {
  }

  /** The effect of one writer call (with WritePropertyName corrected). */
  function Apply(layout: Layout, s: WriterState, c: Call): WriterState
  {
    match c
    case BeginObject =>
      var t := CommaIfNeeded(s);
      WriterState(t.text + "{", s.indent + 1, false)
    case EndObject => WriterState(s.text + "}", s.indent - 1, true)
    case BeginArray =>
      var t := CommaIfNeeded(s);
      WriterState(t.text + "[", s.indent + 1, false)
    case EndArray => WriterState(s.text + "]", s.indent - 1, true)
    case PropertyName(name) => WriterState(s.text + PropertyNameText(layout.newLine, s, name), s.indent, false)
    case WriteString(value) => Scalar(s, Quoted(value.GetOr("")))
    case WriteNull => Scalar(s, "null")
    case WriteBool(b) => Scalar(s, if b then "true" else "false")
    case WriteNumber(n) => Scalar(s, DecimalText(n))
    case WriteRawSingle(bits) => Scalar(s, layout.formatSingle(bits))
    case WriteRawDouble(bits) => Scalar(s, layout.formatDouble(bits))
  }

  /** The effect of a sequence of calls, in order. */
  function ApplyAll(layout: Layout, s: WriterState, cs: seq<Call>): WriterState
  {
    if cs == [] then s else Apply(layout, ApplyAll(layout, s, cs[..|cs| - 1]), cs[|cs| - 1])
  }

  lemma ApplyAllSnoc(layout: Layout, s: WriterState, cs: seq<Call>, c: Call)
    ensures ApplyAll(layout, s, cs + [c]) == Apply(layout, ApplyAll(layout, s, cs), c)
  {
    assert (cs + [c])[..|cs|] == cs;
  }

  /** Running two call sequences one after the other is running their concatenation. */
  lemma {:induction false} ApplyAllAppend(layout: Layout, s: WriterState, a: seq<Call>, b: seq<Call>)
    ensures ApplyAll(layout, ApplyAll(layout, s, a), b) == ApplyAll(layout, s, a + b)
  {
    if b != [] {
      var b' := b[..|b| - 1];
      ApplyAllAppend(layout, s, a, b');
      assert (a + b)[..|a + b| - 1] == a + b';
    } else {
      assert a + b == a;
    }
  }

  /** Net nesting a call sequence opens: +1 per Begin, -1 per End. */
  function Depth(cs: seq<Call>): int
  {
    if cs == [] then 0
    else Depth(cs[..|cs| - 1]) + match cs[|cs| - 1]
      case BeginObject => 1
      case BeginArray => 1
      case EndObject => -1
      case EndArray => -1
      case _ => 0
  }

  /** The indentation after a call sequence is the starting one plus the
      nesting the sequence leaves open. */
  lemma {:induction false} IndentFollowsDepth(layout: Layout, s: WriterState, cs: seq<Call>)
    ensures ApplyAll(layout, s, cs).indent == s.indent + Depth(cs)
  {
    if cs != [] {
      IndentFollowsDepth(layout, s, cs[..|cs| - 1]);
    }
  }

  /** One call appends text that depends only on the indentation and the
      pending-comma flag. */
  lemma ApplyAppends(layout: Layout, s: WriterState, c: Call)
    ensures var e := Apply(layout, s.(text := ""), c);
      Apply(layout, s, c) == e.(text := s.text + e.text)
  {
    var e := Apply(layout, s.(text := ""), c);
    match c
    case BeginObject => OpenAppends(s, "{");
    case EndObject => assert "" + "}" == "}";
    case BeginArray => OpenAppends(s, "[");
    case EndArray => assert "" + "]" == "]";
    case PropertyName(name) =>
      assert LineStart(layout.newLine, s.(text := "")) == LineStart(layout.newLine, s);
      assert e.text == "" + PropertyNameText(layout.newLine, s, name);
    case WriteString(value) => ScalarAppends(s, Quoted(value.GetOr("")));
    case WriteNull => ScalarAppends(s, "null");
    case WriteBool(b) => ScalarAppends(s, if b then "true" else "false");
    case WriteNumber(n) => ScalarAppends(s, DecimalText(n));
    case WriteRawSingle(bits) => ScalarAppends(s, layout.formatSingle(bits));
    case WriteRawDouble(bits) => ScalarAppends(s, layout.formatDouble(bits));
  }

  lemma OpenAppends(s: WriterState, bracket: string)
    ensures CommaIfNeeded(s).text + bracket == s.text + (CommaIfNeeded(s.(text := "")).text + bracket)
  {
  }

  lemma ScalarAppends(s: WriterState, token: string)
    ensures var e := Scalar(s.(text := ""), token);
      Scalar(s, token) == e.(text := s.text + e.text)
  {
    var e := Scalar(s.(text := ""), token);
    assert e.text == (if s.needComma then ", " else "") + token;
  }

  /** The writer only appends, and what it appends does not depend on the
      text already written. */
  lemma {:induction false} TextOnlyGrows(layout: Layout, s: WriterState, cs: seq<Call>)
    ensures var e := ApplyAll(layout, s.(text := ""), cs);
      ApplyAll(layout, s, cs) == e.(text := s.text + e.text)
  {
    if cs != [] {
      var init := cs[..|cs| - 1];
      var c := cs[|cs| - 1];
      TextOnlyGrows(layout, s, init);
      var p := ApplyAll(layout, s, init);
      var q := ApplyAll(layout, s.(text := ""), init);
      assert p.(text := "") == q.(text := "");
      ApplyAppends(layout, p, c);
      ApplyAppends(layout, q, c);
    }
  }

  /** A value call writes ", " exactly when a comma is pending and leaves
      one pending afterwards; Begin calls clear it, End and property names
      do not consult the ", " rule. */
  lemma CommaRule(layout: Layout, s: WriterState, c: Call)
    requires !c.EndObject? && !c.EndArray? && !c.PropertyName?
    ensures |Apply(layout, s, c).text| >= |s.text| + (if s.needComma then 2 else 0)
    ensures Apply(layout, s, c).text[..|s.text|] == s.text
    ensures s.needComma ==> Apply(layout, s, c).text[|s.text|..|s.text| + 2] == ", "
    ensures Apply(layout, s, c).needComma <==> !(c.BeginObject? || c.BeginArray?)
  {
  }

  /** WriteString(null) writes the same as WriteString(""). */
  lemma NullStringIsEmpty(layout: Layout, s: WriterState)
    ensures Apply(layout, s, WriteString(None)) == Apply(layout, s, WriteString(Some("")))
  {
  }

  /** The corrected property name text: at most one comma, the line break
      and the indentation, then the quoted name and ": ", where the text
      between the quotes reads back as the name. */
  lemma PropertyNameSeparatedOnce(nl: string, s: WriterState, name: string)
    requires s.indent >= -2
    ensures var t := PropertyNameText(nl, s, name);
      var k := (if s.needComma then 1 else 0) + |nl| + (s.indent + 2) * 2;
      && k + 4 <= |t| && t[k] == '"'
      && t[..k] == (if s.needComma then "," else "") + nl + Spaces((s.indent + 2) * 2)
      && t[k..] == Quoted(name) + ": "
      && Unescape(t[k + 1..|t| - 3]) == Some(name)
  {
    var sp := Spaces((s.indent + 2) * 2);
    assert |sp| == (s.indent + 2) * 2;
    var head := LineStart(nl, s);
    assert |head| == (if s.needComma then 1 else 0) + |nl| + (s.indent + 2) * 2;
    var rest := Quoted(name) + ": ";
    assert PropertyNameText(nl, s, name) == head + rest;
    QuotedKeyReadsBack(name);
    SplitAfter(head, rest);
  }

  /** The quoted key and ": " start with the quote, and the text between
      the quotes reads back as the name. */
  lemma QuotedKeyReadsBack(name: string)
    ensures var q := Quoted(name) + ": ";
      && 4 <= |q| && q[0] == '"'
      && Unescape(q[1..|q| - 3]) == Some(name)
  {
    UnescapeEach(name);
    var q := Quoted(name) + ": ";
    assert q[1..|q| - 3] == EscapeEach(name);
  }

  lemma SplitAfter(head: string, rest: string)
    ensures (head + rest)[..|head|] == head && (head + rest)[|head|..] == rest
    ensures 4 <= |rest| ==> (head + rest)[|head| + 1..|head + rest| - 3] == rest[1..|rest| - 3]
  {
  }

  /** The written WritePropertyName puts ", " between the indentation and
      the name whenever a comma is pending, i.e. before every property of
      an object but the first. */
  lemma PropertyNameDoubleComma(nl: string, s: WriterState, name: string)
    requires s.indent >= -2 && s.needComma
    ensures var t := PropertyNameTextAsWritten(nl, s, name);
      var k := 1 + |nl| + (s.indent + 2) * 2;
      && t[0] == ',' && t[k..k + 2] == ", "
      && t != PropertyNameText(nl, s, name)
  {
    var sp := Spaces((s.indent + 2) * 2);
    assert |sp| == (s.indent + 2) * 2;
    var t := PropertyNameTextAsWritten(nl, s, name);
    var k := 1 + |nl| + |sp|;
    assert t[k..k + 2] == ", ";
    assert PropertyNameText(nl, s, name)[k] == '"';
  }

  /** The text writer the JSON is written to (a StreamWriter on the output file). */
  class TextOutput {
    var text: string
    const newLine: string

    constructor (newLine: string)
      ensures text == "" && this.newLine == newLine
    {
      text := "";
      this.newLine := newLine;
    }

    method Write(s: string)
      modifies this
      ensures text == old(text) + s
    {
      text := text + s;
    }

    method WriteLine(s: string)
      modifies this
      ensures text == old(text) + s + newLine
    {
      text := text + s + newLine;
    }
  }

  class JsonWriter {
    const tw: TextOutput
    const formatSingle: nat -> string
    const formatDouble: nat -> string
    var indent: int
    var needComma: bool

    constructor (tw: TextOutput, formatSingle: nat -> string, formatDouble: nat -> string)
      ensures this.tw == tw && this.formatSingle == formatSingle && this.formatDouble == formatDouble
      ensures indent == 0 && !needComma
    {
      this.tw := tw;
      this.formatSingle := formatSingle;
      this.formatDouble := formatDouble;
      indent := 0;
      needComma := false;
    }

    function Format(): Layout
    {
      Layout(tw.newLine, formatSingle, formatDouble)
    }

    function State(): WriterState
      reads this, tw
    {
      WriterState(tw.text, indent, needComma)
    }

    method BeginObject()
      modifies this, tw
      ensures State() == Apply(Format(), old(State()), Call.BeginObject)
      ensures old(tw.text) <= tw.text
    {
      WriteCommaIfNeeded();
      tw.Write("{");
      indent := indent + 1;
      needComma := false;
    }

    method EndObject()
      modifies this, tw
      ensures State() == Apply(Format(), old(State()), Call.EndObject)
      ensures old(tw.text) <= tw.text
    {
      indent := indent - 1;
      tw.Write("}");
      needComma := true;
    }

    method BeginArray()
      modifies this, tw
      ensures State() == Apply(Format(), old(State()), Call.BeginArray)
      ensures old(tw.text) <= tw.text
    {
      WriteCommaIfNeeded();
      tw.Write("[");
      indent := indent + 1;
      needComma := false;
    }

    method EndArray()
      modifies this, tw
      ensures State() == Apply(Format(), old(State()), Call.EndArray)
      ensures old(tw.text) <= tw.text
    {
      indent := indent - 1;
      tw.Write("]");
      needComma := true;
    }

    /** Corrected: the pending comma is written once, before the line
        break, and cleared before the name is written. A negative space
        count would throw, hence the bound on the indentation. */
    method WritePropertyName(name: string)
      requires indent >= -2
      modifies this, tw
      ensures State() == Apply(Format(), old(State()), PropertyName(name))
      ensures old(tw.text) <= tw.text
    {
      ghost var s0 := State();
      WriteLineStart();
      WriteString(Some(name));
      tw.Write(": ");
      needComma := false;
      Regroup(s0.text, LineStart(tw.newLine, s0), Quoted(name), ": ");
    }

    /** The pending comma (written once and cleared), a line break and the
        indentation of a property name. */
    method WriteLineStart()
      requires indent >= -2
      modifies this, tw
      ensures tw.text == old(tw.text) + LineStart(tw.newLine, old(State()))
      ensures indent == old(indent) && !needComma
    {
      ghost var s0 := State();
      var comma := if needComma then "," else "";
      if needComma {
        tw.Write(",");
        needComma := false;
      }
      tw.WriteLine("");
      var sp := Spaces((indent + 2) * 2);
      tw.Write(sp);
      assert tw.text == s0.text + comma + "" + tw.newLine + sp;
      assert comma + tw.newLine + sp == LineStart(tw.newLine, s0);
      assert (s0.text + comma + tw.newLine) + sp == s0.text + (comma + tw.newLine + sp);
    }

    method WriteString(value: Option<string>)
      modifies this, tw
      ensures State() == Apply(Format(), old(State()), Call.WriteString(value))
      ensures old(tw.text) <= tw.text
    {
      var escaped := Escape(value.GetOr(""));
      EscapeIsPerCharacter(value.GetOr(""));
      assert "\"" + escaped + "\"" == Quoted(value.GetOr(""));
      WriteCommaIfNeeded();
      ghost var t0 := tw.text;
      tw.Write("\"");
      tw.Write(escaped);
      tw.Write("\"");
      assert tw.text == t0 + ("\"" + escaped + "\"");
      needComma := true;
    }

    method WriteNull()
      modifies this, tw
      ensures State() == Apply(Format(), old(State()), Call.WriteNull)
      ensures old(tw.text) <= tw.text
    {
      WriteCommaIfNeeded();
      tw.Write("null");
      needComma := true;
    }

    method WriteBool(value: bool)
      modifies this, tw
      ensures State() == Apply(Format(), old(State()), Call.WriteBool(value))
      ensures old(tw.text) <= tw.text
    {
      WriteCommaIfNeeded();
      tw.Write(if value then "true" else "false");
      needComma := true;
    }

    method WriteNumber(value: int)
      modifies this, tw
      ensures State() == Apply(Format(), old(State()), Call.WriteNumber(value))
      ensures old(tw.text) <= tw.text
    {
      WriteCommaIfNeeded();
      tw.Write(DecimalText(value));
      needComma := true;
    }

    method WriteRawSingle(bits: nat)
      modifies this, tw
      ensures State() == Apply(Format(), old(State()), Call.WriteRawSingle(bits))
      ensures old(tw.text) <= tw.text
    {
      WriteCommaIfNeeded();
      tw.Write(formatSingle(bits));
      needComma := true;
    }

    method WriteRawDouble(bits: nat)
      modifies this, tw
      ensures State() == Apply(Format(), old(State()), Call.WriteRawDouble(bits))
      ensures old(tw.text) <= tw.text
    {
      WriteCommaIfNeeded();
      tw.Write(formatDouble(bits));
      needComma := true;
    }

    method WriteCommaIfNeeded()
      modifies this, tw
      ensures State() == CommaIfNeeded(old(State()))
      ensures old(tw.text) <= tw.text
    {
      if needComma {
        tw.Write(", ");
        needComma := false;
      }
    }
  }
}
