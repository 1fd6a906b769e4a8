/** Sample lines of the Prometheus text exposition format, version 0.0.4. */
module Exposition {
  import opened Wrappers

  // ---------------------------------------------------------------- printing

  /** Every occurrence of one character replaced by a text. */
  function Replace(s: string, c: char, text: string): string {
    if s == [] then [] else (if s[0] == c then text else [s[0]]) + Replace(s[1..], c, text)
  }

  function EscapeLabel(s: Option<string>): string {
    if s.None? then "" else Replace(Replace(Replace(s.value, '\\', "\\\\"), '\"', "\\\""), '\n', " ")
  }

  datatype Label = Label(name: string, value: Option<string>)

  function LabelText(l: Label): string { l.name + "=\"" + EscapeLabel(l.value) + "\"" }

  function Joined(labels: seq<Label>): string {
    if labels == [] then ""
    else if |labels| == 1 then LabelText(labels[0])
    else LabelText(labels[0]) + "," + Joined(labels[1..])
  }

  function Line(name: string, value: string, labels: seq<Label>): string {
    if labels == [] then name + " " + value else name + "{" + Joined(labels) + "} " + value
  }

  method Sample(name: string, value: string, labels: seq<Label>) returns (lines: seq<string>)
    ensures |lines| == 1 && lines[0] == Line(name, value, labels)
    ensures IsName(name) && (forall i :: 0 <= i < |labels| ==> IsLabelName(labels[i].name)) ==>
              Parse(lines[0]) == Parsed(name, AllShown(labels), value)
    ensures IsName(name) && '\n' !in value && (forall i :: 0 <= i < |labels| ==> IsLabelName(labels[i].name)) ==>
              '\n' !in lines[0]
  {
    lines := [];
    if labels != [] {
      var text := Joined(labels);
      lines := lines + [name + "{" + text + "} " + value];
    } else {
      lines := lines + [name + " " + value];
    }
    if IsName(name) && forall i :: 0 <= i < |labels| ==> IsLabelName(labels[i].name) {
      SampleRoundTrip(name, value, labels);
      if '\n' !in value { SampleIsOneLine(name, value, labels); }
    }
  }

  // ---------------------------------------------------------------- escaping in one pass

  function EscapeChar(c: char): string {
    if c == '\\' then "\\\\" else if c == '\"' then "\\\"" else if c == '\n' then " " else [c]
  }

  function EscapeOnce(s: string): string { if s == [] then [] else EscapeChar(s[0]) + EscapeOnce(s[1..]) }

  lemma {:induction false} ReplaceConcat(a: string, b: string, c: char, text: string)
    ensures Replace(a + b, c, text) == Replace(a, c, text) + Replace(b, c, text)
  {
    if a == [] {
      assert a + b == b;
    } else {
      ReplaceConcat(a[1..], b, c, text);
      assert (a + b)[1..] == a[1..] + b && (a + b)[0] == a[0];
      var first := if a[0] == c then text else [a[0]];
      assert Replace(a + b, c, text) == first + (Replace(a[1..], c, text) + Replace(b, c, text));
    }
  }

  lemma ReplaceOne(x: char, c: char, text: string)
    ensures Replace([x], c, text) == if x == c then text else [x]
  {
    assert [x][1..] == [];
  }

  lemma ReplaceTwo(x: char, y: char, c: char, text: string)
    ensures Replace([x, y], c, text) == (if x == c then text else [x]) + if y == c then text else [y]
  {
    assert [x, y] == [x] + [y];
    ReplaceConcat([x], [y], c, text);
    ReplaceOne(x, c, text);
    ReplaceOne(y, c, text);
  }

  lemma EscapeCharByChain(c: char)
    ensures Replace(Replace(Replace([c], '\\', "\\\\"), '\"', "\\\""), '\n', " ") == EscapeChar(c)
  {
    ReplaceOne(c, '\\', "\\\\");
    if c == '\\' {
      ReplaceTwo('\\', '\\', '\"', "\\\"");
      ReplaceTwo('\\', '\\', '\n', " ");
    } else {
      ReplaceOne(c, '\"', "\\\"");
      if c == '\"' { ReplaceTwo('\\', '\"', '\n', " "); } else { ReplaceOne(c, '\n', " "); }
    }
  }

  /** The three replacements in their order are one character-by-character escape. */
  lemma {:induction false} ChainIsOnePass(s: string)
    ensures EscapeLabel(Some(s)) == EscapeOnce(s)
  {
    if s != [] {
      ChainIsOnePass(s[1..]);
      EscapeCharByChain(s[0]);
      var a := Replace(s[1..], '\\', "\\\\");
      var x := Replace([s[0]], '\\', "\\\\");
      assert s == [s[0]] + s[1..];
      ReplaceConcat([s[0]], s[1..], '\\', "\\\\");
      ReplaceConcat(x, a, '\"', "\\\"");
      ReplaceConcat(Replace(x, '\"', "\\\""), Replace(a, '\"', "\\\""), '\n', " ");
    }
  }

  // ---------------------------------------------------------------- parsing

  /** A value read up to its closing quote, with what follows it. */
  datatype Scan = Bad | Ok(value: string, rest: string)

  function Cons(c: char, s: Scan): Scan { if s.Ok? then Ok([c] + s.value, s.rest) else Bad }

  function ScanValue(s: string): (r: Scan)
    ensures r.Ok? ==> |r.rest| < |s|
  {
    if s == [] || s[0] == '\n' then Bad
    else if s[0] == '\"' then Ok("", s[1..])
    else if s[0] != '\\' then Cons(s[0], ScanValue(s[1..]))
    else if |s| < 2 then Bad
    else if s[1] == '\\' || s[1] == '\"' then Cons(s[1], ScanValue(s[2..]))
    else if s[1] == 'n' then Cons('\n', ScanValue(s[2..]))
    else Bad
  }

  predicate IsNameChar(c: char) { 'a' <= c <= 'z' || 'A' <= c <= 'Z' || '0' <= c <= '9' || c == '_' || c == ':' }

  predicate IsName(s: string) { s != [] && !('0' <= s[0] <= '9') && forall i :: 0 <= i < |s| ==> IsNameChar(s[i]) }

  predicate IsLabelName(s: string) { IsName(s) && ':' !in s }

  /** How many name characters a text starts with. */
  function NameLength(s: string): (n: nat)
    ensures n <= |s|
  {
    if s == [] || !IsNameChar(s[0]) then 0 else 1 + NameLength(s[1..])
  }

  datatype Pair = Pair(name: string, value: string)

  datatype ScanLabels = BadLabels | OkLabels(labels: seq<Pair>, rest: string)

  /** Labels up to the closing brace. */
  function ParseLabels(s: string): ScanLabels
    decreases |s|
  {
    var n := NameLength(s);
    if !IsLabelName(s[..n]) || |s| < n + 2 || s[n..n + 2] != "=\"" then BadLabels
    else
      var v := ScanValue(s[n + 2..]);
      if v.Bad? || v.rest == [] then BadLabels
      else if v.rest[0] == '}' then OkLabels([Pair(s[..n], v.value)], v.rest[1..])
      else if v.rest[0] != ',' then BadLabels
      else
        var more := ParseLabels(v.rest[1..]);
        if more.BadLabels? then BadLabels else OkLabels([Pair(s[..n], v.value)] + more.labels, more.rest)
  }

  datatype Parsed = Unreadable | Parsed(name: string, labels: seq<Pair>, value: string)

  function Parse(line: string): Parsed {
    var n := NameLength(line);
    var rest := line[n..];
    if !IsName(line[..n]) || rest == [] then Unreadable
    else if rest[0] == ' ' then Parsed(line[..n], [], rest[1..])
    else if rest[0] != '{' then Unreadable
    else
      var ls := ParseLabels(rest[1..]);
      if ls.BadLabels? || ls.rest == [] || ls.rest[0] != ' ' then Unreadable
      else Parsed(line[..n], ls.labels, ls.rest[1..])
  }

  // ---------------------------------------------------------------- round trip

  /** What a label value keeps: its newlines become spaces. */
  function Flattened(s: string): string {
    if s == [] then [] else [if s[0] == '\n' then ' ' else s[0]] + Flattened(s[1..])
  }

  function Shown(l: Label): Pair { Pair(l.name, if l.value.None? then "" else Flattened(l.value.value)) }

  function AllShown(labels: seq<Label>): seq<Pair> {
    if labels == [] then [] else [Shown(labels[0])] + AllShown(labels[1..])
  }

  lemma {:induction false} ScanEscaped(s: string, rest: string)
    ensures ScanValue(EscapeOnce(s) + "\"" + rest) == Ok(Flattened(s), rest)
  {
    if s == [] {
      assert EscapeOnce(s) + "\"" + rest == ['\"'] + rest;
      assert (['\"'] + rest)[1..] == rest;
    } else {
      ScanEscaped(s[1..], rest);
      var tail := EscapeOnce(s[1..]) + "\"" + rest;
      var all := EscapeOnce(s) + "\"" + rest;
      assert all == EscapeChar(s[0]) + tail;
      assert all[|EscapeChar(s[0])|..] == tail;
    }
  }

  /** Reading back a printed label value gives the value with its newlines turned into spaces. */
  lemma ValueRoundTrip(value: Option<string>, rest: string)
    ensures ScanValue(EscapeLabel(value) + "\"" + rest) == Ok(if value.None? then "" else Flattened(value.value), rest)
  {
    if value.None? {
      ScanEscaped("", rest);
    } else {
      ChainIsOnePass(value.value);
      ScanEscaped(value.value, rest);
    }
  }

  lemma {:induction false} NameEnds(name: string, rest: string)
    requires forall i :: 0 <= i < |name| ==> IsNameChar(name[i])
    requires rest != [] && !IsNameChar(rest[0])
    ensures NameLength(name + rest) == |name| && (name + rest)[..|name|] == name && (name + rest)[|name|..] == rest
  {
    if name == [] {
      assert name + rest == rest;
    } else {
      NameEnds(name[1..], rest);
      assert (name + rest)[1..] == name[1..] + rest;
    }
  }

  lemma NameThenQuote(name: string, tail: string)
    requires IsLabelName(name)
    ensures var s := name + ("=\"" + tail); var n := |name|;
            NameLength(s) == n && s[..n] == name && |s| >= n + 2 && s[n..n + 2] == "=\"" && s[n + 2..] == tail
  {
    NameEnds(name, "=\"" + tail);
  }

  lemma LabelShape(name: string, value: string, rest: string)
    ensures name + "=\"" + value + "\"" + rest == name + ("=\"" + (value + "\"" + rest))
  {
  }

  lemma ParseOneLabel(l: Label, rest: string)
    requires IsLabelName(l.name)
    ensures var s := LabelText(l) + rest; var n := |l.name|;
            && NameLength(s) == n && s[..n] == l.name && |s| >= n + 2 && s[n..n + 2] == "=\""
            && ScanValue(s[n + 2..]) == Ok(Shown(l).value, rest)
  {
    LabelShape(l.name, EscapeLabel(l.value), rest);
    NameThenQuote(l.name, EscapeLabel(l.value) + "\"" + rest);
    ValueRoundTrip(l.value, rest);
  }

  lemma ParseLastLabel(l: Label, rest: string)
    requires IsLabelName(l.name)
    ensures ParseLabels(LabelText(l) + ("}" + rest)) == OkLabels([Shown(l)], rest)
  {
    ParseOneLabel(l, "}" + rest);
    assert ("}" + rest)[1..] == rest;
  }

  lemma ParseNextLabel(l: Label, tail: string)
    requires IsLabelName(l.name) && ParseLabels(tail).OkLabels?
    ensures ParseLabels(LabelText(l) + ("," + tail))
            == OkLabels([Shown(l)] + ParseLabels(tail).labels, ParseLabels(tail).rest)
  {
    ParseOneLabel(l, "," + tail);
    assert ("," + tail)[1..] == tail;
  }

  lemma Regroup(a: string, b: string, c: string)
    ensures (a + "," + b) + c == a + ("," + (b + c))
  {
  }

  lemma Braces(name: string, labels: string, value: string)
    ensures name + "{" + labels + "} " + value == name + ("{" + (labels + ("}" + (" " + value))))
  {
  }

  lemma {:induction false} LabelsRoundTrip(labels: seq<Label>, rest: string)
    requires labels != [] && forall i :: 0 <= i < |labels| ==> IsLabelName(labels[i].name)
    ensures ParseLabels(Joined(labels) + ("}" + rest)) == OkLabels(AllShown(labels), rest)
  {
    if |labels| == 1 {
      ParseLastLabel(labels[0], rest);
      assert AllShown(labels[1..]) == [];
    } else {
      var tail := Joined(labels[1..]) + ("}" + rest);
      LabelsRoundTrip(labels[1..], rest);
      ParseNextLabel(labels[0], tail);
      Regroup(LabelText(labels[0]), Joined(labels[1..]), "}" + rest);
    }
  }

  lemma ParsePlain(name: string, value: string)
    requires IsName(name)
    ensures Parse(name + (" " + value)) == Parsed(name, [], value)
  {
    NameEnds(name, " " + value);
    assert (" " + value)[1..] == value;
  }

  lemma ParseBraced(name: string, body: string, labels: seq<Pair>, value: string)
    requires IsName(name) && ParseLabels(body) == OkLabels(labels, " " + value)
    ensures Parse(name + ("{" + body)) == Parsed(name, labels, value)
  {
    NameEnds(name, "{" + body);
    assert ("{" + body)[1..] == body && (" " + value)[1..] == value;
  }

  /** A printed sample reads back as the same name, the same labels in the same order, and the same value. */
  lemma SampleRoundTrip(name: string, value: string, labels: seq<Label>)
    requires IsName(name) && forall i :: 0 <= i < |labels| ==> IsLabelName(labels[i].name)
    ensures Parse(Line(name, value, labels)) == Parsed(name, AllShown(labels), value)
  {
    if labels == [] {
      ParsePlain(name, value);
      assert name + " " + value == name + (" " + value);
    } else {
      var body := Joined(labels) + ("}" + (" " + value));
      LabelsRoundTrip(labels, " " + value);
      ParseBraced(name, body, AllShown(labels), value);
      Braces(name, Joined(labels), value);
    }
  }

  lemma {:induction false} EscapeHasNoNewline(s: string)
    ensures '\n' !in EscapeOnce(s)
  {
    if s != [] { EscapeHasNoNewline(s[1..]); }
  }

  lemma {:induction false} JoinedHasNoNewline(labels: seq<Label>)
    requires forall i :: 0 <= i < |labels| ==> IsLabelName(labels[i].name)
    ensures '\n' !in Joined(labels)
  {
    if labels != [] {
      var l := labels[0];
      if l.value.Some? {
        ChainIsOnePass(l.value.value);
        EscapeHasNoNewline(l.value.value);
      }
      assert forall i :: 0 <= i < |l.name| ==> IsNameChar(l.name[i]);
      JoinedHasNoNewline(labels[1..]);
    }
  }

  /** Whatever its label values hold, a sample is one line. */
  lemma SampleIsOneLine(name: string, value: string, labels: seq<Label>)
    requires IsName(name) && '\n' !in value && forall i :: 0 <= i < |labels| ==> IsLabelName(labels[i].name)
    ensures '\n' !in Line(name, value, labels)
  {
    assert forall i :: 0 <= i < |name| ==> IsNameChar(name[i]);
    JoinedHasNoNewline(labels);
  }
}
