/** The text form of a list of periods: the printer, the array text the database hands back, and the parser. */
module RangeArray {
  import opened Prelude

  /** A period by the texts of its two timestamps. */
  datatype TextPeriod = TextPeriod(start: string, end: string)

  // ---------------------------------------------------------------- characters

  /** The line terminators, which `.` does not match. */
  predicate LineBreak(c: char) {
    c == '\n' || c == '\r' || c == '\U{2028}' || c == '\U{2029}'
  }

  /** What `trim()` takes off. */
  predicate Space(c: char) {
    || LineBreak(c) || c == ' ' || c == '\t' || c == '\U{000B}' || c == '\U{000C}' || c == '\U{00A0}' || c == '\U{FEFF}'
    || c == '\U{1680}' || '\U{2000}' <= c <= '\U{200A}' || c == '\U{202F}' || c == '\U{205F}' || c == '\U{3000}'
  }

  /** The characters with a meaning in a range or an array. */
  predicate Special(c: char) {
    c == '[' || c == ']' || c == '(' || c == ')' || c == ',' || c == '"' || c == '{' || c == '}' || c == '\\'
  }

  predicate NoSpecial(t: string) {
    forall i | 0 <= i < |t| :: !Special(t[i])
  }

  predicate OneLine(t: string) {
    forall i | 0 <= i < |t| :: !LineBreak(t[i])
  }

  function TrimLeft(t: string): string {
    if t != "" && Space(t[0]) then TrimLeft(t[1..]) else t
  }

  function TrimRight(t: string): string {
    if t != "" && Space(t[|t| - 1]) then TrimRight(t[..|t| - 1]) else t
  }

  function Trim(t: string): string {
    TrimRight(TrimLeft(t))
  }

  // ---------------------------------------------------------------- printing

  /** What the service stores for one period. */
  function Print(p: TextPeriod): string {
    "[" + p.start + "," + p.end + ")"
  }

  /** Which bounds the database puts in quotes. */
  datatype Quoting = Quoting(start: bool, end: bool)

  function Escaped(t: string, quoted: bool): string {
    if quoted then "\\\"" + t + "\\\"" else t
  }

  /** One array element: always quoted, since it has a comma in it, so the quotes of its bounds are escaped. */
  function Element(p: TextPeriod, q: Quoting): string {
    "\"[" + Escaped(p.start, q.start) + "," + Escaped(p.end, q.end) + ")\""
  }

  function Elements(ps: seq<TextPeriod>, qs: seq<Quoting>): string
    requires |ps| == |qs|
  {
    if ps == [] then ""
    else if |ps| == 1 then Element(ps[0], qs[0])
    else Element(ps[0], qs[0]) + "," + Elements(ps[1..], qs[1..])
  }

  /** The text of the whole array. */
  function ArrayText(ps: seq<TextPeriod>, qs: seq<Quoting>): string
    requires |ps| == |qs|
  {
    "{" + Elements(ps, qs) + "}"
  }

  // ---------------------------------------------------------------- parsing

  function DropEscapedQuotes(s: string): string {
    if |s| >= 2 && s[0] == '\\' && s[1] == '"' then DropEscapedQuotes(s[2..])
    else if s == "" then ""
    else [s[0]] + DropEscapedQuotes(s[1..])
  }

  function DropQuotes(s: string): string {
    if s == "" then ""
    else if s[0] == '"' then DropQuotes(s[1..])
    else [s[0]] + DropQuotes(s[1..])
  }

  /** Where the first closing parenthesis from `i` on ends, unless a line break comes first. */
  function Closing(s: string, i: nat): (n: Option<nat>)
    ensures n.Some? ==> i < n.value <= |s|
    decreases |s| - i
  {
    if i >= |s| || LineBreak(s[i]) then None
    else if s[i] == ')' then Some(i + 1)
    else Closing(s, i + 1)
  }

  /** The length of a shortest match of an opening bracket, some characters and a parenthesis, at the front. */
  function MatchLength(s: string): (n: Option<nat>)
    ensures n.Some? ==> 3 <= n.value <= |s|
  {
    if |s| >= 2 && s[0] == '[' && !LineBreak(s[1]) then Closing(s, 2) else None
  }

  function Matches(s: string): seq<string>
    decreases |s|
  {
    if s == "" then []
    else
      match MatchLength(s)
      case Some(n) => [s[..n]] + Matches(s[n..])
      case None => Matches(s[1..])
  }

  function ParseStringAvailability(text: string): seq<string> {
    if text == "" || text == "{}" then [] else
    var s0 := Trim(text);
    var s1 := if s0 != "" && s0[0] == '{' then s0[1..] else s0;
    var s2 := if s1 != "" && s1[|s1| - 1] == '}' then s1[..|s1| - 1] else s1;
    Matches(DropQuotes(DropEscapedQuotes(s2)))
  }

  function CommaAt(s: string): (i: Option<nat>)
    ensures i.Some? ==> i.value < |s| && s[i.value] == ','
    ensures i.Some? ==> forall j | 0 <= j < i.value :: s[j] != ','
    ensures i.None? ==> forall j | 0 <= j < |s| :: s[j] != ','
  {
    if s == "" then None
    else if s[0] == ',' then Some(0)
    else match CommaAt(s[1..]) case None => None case Some(i) => Some(i + 1)
  }

  /** Brackets around two texts with the only comma between them; anything else is an error. */
  function ParseStringPeriod(text: string): Option<TextPeriod> {
    var t := Trim(text);
    if |t| < 2 || t[0] != '[' || t[|t| - 1] != ')' then None else
    var inner := t[1..|t| - 1];
    match CommaAt(inner)
    case None => None
    case Some(i) =>
      var left, right := inner[..i], inner[i + 1..];
      if left == "" || right == "" || CommaAt(right).Some? then None
      else Some(TextPeriod(Trim(left), Trim(right)))
  }

  function ParseAll(texts: seq<string>): Option<seq<TextPeriod>> {
    if texts == [] then Some([]) else
    match ParseStringPeriod(texts[0])
    case None => None
    case Some(p) => match ParseAll(texts[1..]) case None => None case Some(ps) => Some([p] + ps)
  }

  /** The column as it may be at run time: text from the database, or the strings that were assigned to it. */
  datatype Column = Missing | Text(text: string) | Items(items: seq<string>)

  function AvailabilityPeriodStrings(c: Column): seq<string> {
    match c
    case Missing => []
    case Text(text) => ParseStringAvailability(text)
    case Items(items) => items
  }

  /** `None` when the getter throws. */
  function AvailabilityPeriodDates(c: Column): Option<seq<TextPeriod>> {
    ParseAll(AvailabilityPeriodStrings(c))
  }

  // ---------------------------------------------------------------- quotes

  lemma DropQuotesHead(c: char, s: string)
    ensures DropQuotes([c] + s) == (if c == '"' then "" else [c]) + DropQuotes(s)
  {
    assert ([c] + s)[1..] == s;
  }

  lemma {:induction false} DropQuotesConcat(s: string, t: string)
    ensures DropQuotes(s + t) == DropQuotes(s) + DropQuotes(t)
  {
    if s == "" {
      assert s + t == t;
    } else {
      var c, rest := s[0], s[1..];
      HeadOfConcat(s, t);
      DropQuotesConcat(rest, t);
      DropQuotesHead(c, rest);
      DropQuotesHead(c, rest + t);
    }
  }

  predicate Cut(s: string, t: string) {
    !(s != "" && s[|s| - 1] == '\\' && t != "" && t[0] == '"')
  }

  lemma DropEscapedPair(s: string)
    ensures DropEscapedQuotes("\\\"" + s) == DropEscapedQuotes(s)
  {
    assert ("\\\"" + s)[2..] == s;
  }

  lemma DropEscapedHead(c: char, s: string)
    requires !(c == '\\' && s != "" && s[0] == '"')
    ensures DropEscapedQuotes([c] + s) == [c] + DropEscapedQuotes(s)
  {
    assert ([c] + s)[1..] == s;
  }

  lemma {:induction false} DropEscapedConcat(s: string, t: string)
    requires Cut(s, t)
    ensures DropEscapedQuotes(s + t) == DropEscapedQuotes(s) + DropEscapedQuotes(t)
    decreases |s|
  {
    if s == "" {
      assert s + t == t;
    } else if |s| >= 2 && s[0] == '\\' && s[1] == '"' {
      var rest := s[2..];
      assert s == "\\\"" + rest && s + t == "\\\"" + (rest + t);
      DropEscapedConcat(rest, t);
      DropEscapedPair(rest + t);
    } else {
      var c, rest := s[0], s[1..];
      HeadOfConcat(s, t);
      DropEscapedConcat(rest, t);
      DropEscapedHead(c, rest);
      DropEscapedHead(c, rest + t);
    }
  }

  function Unquoted(s: string): string {
    DropQuotes(DropEscapedQuotes(s))
  }

  lemma UnquotedConcat(s: string, t: string)
    requires Cut(s, t)
    ensures Unquoted(s + t) == Unquoted(s) + Unquoted(t)
  {
    DropEscapedConcat(s, t);
    DropQuotesConcat(DropEscapedQuotes(s), DropEscapedQuotes(t));
  }

  lemma {:induction false} UnquotedPlain(t: string)
    requires forall i | 0 <= i < |t| :: t[i] != '"' && t[i] != '\\'
    ensures Unquoted(t) == t
  {
    if t != "" {
      UnquotedPlain(t[1..]);
    }
  }

  lemma UnquotedEscape()
    ensures Unquoted("\\\"") == "" && Unquoted("\"") == ""
  {
    assert "\\\""[2..] == "" && "\""[1..] == "";
    assert DropEscapedQuotes("\\\"") == "";
    assert DropEscapedQuotes("\"") == "\"" + DropEscapedQuotes("");
    assert DropQuotes("\"") == DropQuotes("");
  }

  lemma UnquotedBound(t: string, quoted: bool)
    requires NoSpecial(t)
    ensures Unquoted(Escaped(t, quoted)) == t
  {
    UnquotedPlain(t);
    if quoted {
      UnquotedEscape();
      UnquotedConcat("\\\"", t);
      UnquotedConcat("\\\"" + t, "\\\"");
    }
  }

  lemma UnquotedElement(p: TextPeriod, q: Quoting)
    requires NoSpecial(p.start) && NoSpecial(p.end)
    ensures Unquoted(Element(p, q)) == Print(p)
  {
    var s, e := Escaped(p.start, q.start), Escaped(p.end, q.end);
    UnquotedEscape();
    UnquotedPlain("[");
    UnquotedPlain(",");
    UnquotedPlain(")");
    UnquotedConcat("\"", "[");
    UnquotedConcat(")", "\"");
    UnquotedBound(p.start, q.start);
    UnquotedBound(p.end, q.end);
    UnquotedConcat("\"[", s);
    UnquotedConcat("\"[" + s, ",");
    UnquotedConcat("\"[" + s + ",", e);
    UnquotedConcat("\"[" + s + "," + e, ")\"");
  }

  /** The printed periods with commas between them. */
  function Listed(ps: seq<TextPeriod>): string {
    if ps == [] then ""
    else if |ps| == 1 then Print(ps[0])
    else Print(ps[0]) + "," + Listed(ps[1..])
  }

  ghost predicate AllNoSpecial(ps: seq<TextPeriod>) {
    forall p | p in ps :: NoSpecial(p.start) && NoSpecial(p.end)
  }

  lemma {:induction false} UnquotedElements(ps: seq<TextPeriod>, qs: seq<Quoting>)
    requires |ps| == |qs| && AllNoSpecial(ps)
    ensures Unquoted(Elements(ps, qs)) == Listed(ps)
  {
    if ps == [] {
      UnquotedPlain("");
    } else {
      UnquotedElement(ps[0], qs[0]);
      if |ps| > 1 {
        UnquotedElements(ps[1..], qs[1..]);
        UnquotedPlain(",");
        UnquotedConcat(Element(ps[0], qs[0]), ",");
        UnquotedConcat(Element(ps[0], qs[0]) + ",", Elements(ps[1..], qs[1..]));
      }
    }
  }

  // ---------------------------------------------------------------- matching

  lemma {:induction false} ClosingAt(s: string, i: nat, n: nat)
    requires i <= n < |s|
    requires forall j | i <= j < n :: s[j] != ')' && !LineBreak(s[j])
    ensures s[n] == ')' ==> Closing(s, i) == Some(n + 1)
    ensures LineBreak(s[n]) ==> Closing(s, i) == None
    decreases n - i
  {
    if i < n {
      ClosingAt(s, i + 1, n);
    }
  }

  lemma {:induction false} MatchesSkip(a: string, rest: string)
    requires forall i | 0 <= i < |a| :: a[i] != '['
    ensures Matches(a + rest) == Matches(rest)
  {
    if a == "" {
      assert a + rest == rest;
    } else {
      assert (a + rest)[1..] == a[1..] + rest;
      MatchesSkip(a[1..], rest);
    }
  }

  predicate OneLinePeriod(p: TextPeriod) {
    OneLine(p.start) && OneLine(p.end)
  }

  lemma {:induction false} FirstBreak(t: string) returns (n: nat)
    requires !OneLine(t)
    ensures n < |t| && LineBreak(t[n]) && forall j | 0 <= j < n :: !LineBreak(t[j])
  {
    if LineBreak(t[0]) {
      n := 0;
    } else {
      var m := FirstBreak(t[1..]);
      n := m + 1;
    }
  }

  lemma MatchBody(body: string, rest: string)
    requires body != "" && forall j | 0 <= j < |body| :: body[j] != ')'
    ensures MatchLength("[" + body + ")" + rest) == if OneLine(body) then Some(|body| + 2) else None
  {
    var s := "[" + body + ")" + rest;
    assert forall j | 0 <= j < |body| :: s[j + 1] == body[j];
    assert forall j | 1 <= j < |body| + 1 :: s[j] == body[j - 1];
    assert s[|body| + 1] == ')';
    if OneLine(body) {
      ClosingAt(s, 2, |body| + 1);
    } else {
      var n := FirstBreak(body);
      if n > 0 {
        ClosingAt(s, 2, n + 1);
      }
    }
  }

  lemma BodyOnOneLine(p: TextPeriod)
    ensures OneLine(p.start + "," + p.end) <==> OneLinePeriod(p)
  {
    var body := p.start + "," + p.end;
    assert forall j | 0 <= j < |p.start| :: body[j] == p.start[j];
    assert forall j | 0 <= j < |p.end| :: body[j + |p.start| + 1] == p.end[j];
    assert forall j | |p.start| + 1 <= j < |body| :: body[j] == p.end[j - |p.start| - 1];
  }

  /** A printed period on one line is the shortest match at its bracket; one with a line break is no match. */
  lemma MatchPrinted(p: TextPeriod, rest: string)
    requires NoSpecial(p.start) && NoSpecial(p.end)
    ensures MatchLength(Print(p) + rest) == if OneLinePeriod(p) then Some(|Print(p)|) else None
  {
    var body := p.start + "," + p.end;
    assert Print(p) == "[" + body + ")";
    MatchBody(body, rest);
    BodyOnOneLine(p);
  }

  lemma MatchesPrinted(p: TextPeriod, rest: string)
    requires NoSpecial(p.start) && NoSpecial(p.end)
    ensures Matches(Print(p) + rest) == (if OneLinePeriod(p) then [Print(p)] else []) + Matches(rest)
  {
    var s := Print(p) + rest;
    MatchPrinted(p, rest);
    if OneLinePeriod(p) {
      assert s[..|Print(p)|] == Print(p) && s[|Print(p)|..] == rest;
    } else {
      var tail := p.start + "," + p.end + ")";
      assert s[1..] == tail + rest;
      MatchesSkip(tail, rest);
    }
  }

  /** The printed periods on one line. */
  function Kept(ps: seq<TextPeriod>): seq<string> {
    if ps == [] then [] else (if OneLinePeriod(ps[0]) then [Print(ps[0])] else []) + Kept(ps[1..])
  }

  lemma {:induction false} MatchesListed(ps: seq<TextPeriod>)
    requires AllNoSpecial(ps)
    ensures Matches(Listed(ps)) == Kept(ps)
  {
    if ps != [] {
      if |ps| == 1 {
        MatchesPrinted(ps[0], "");
        assert Print(ps[0]) + "" == Print(ps[0]);
        assert Kept(ps[1..]) == [];
      } else {
        MatchesListed(ps[1..]);
        MatchesPrinted(ps[0], "," + Listed(ps[1..]));
        MatchesSkip(",", Listed(ps[1..]));
        assert Print(ps[0]) + ("," + Listed(ps[1..])) == Listed(ps);
      }
    }
  }

  lemma NothingToTrim(t: string)
    requires t != "" && !Space(t[0]) && !Space(t[|t| - 1])
    ensures Trim(t) == t
  {
  }

  lemma BracesAreStripped(inner: string)
    requires inner != ""
    ensures ParseStringAvailability("{" + inner + "}") == Matches(Unquoted(inner))
  {
    var text := "{" + inner + "}";
    NothingToTrim(text);
    assert |text| > 2 && text[1..] == inner + "}";
    assert (inner + "}")[..|inner|] == inner;
  }

  /** What the parser finds in an array text: the periods on one line, whatever was quoted. */
  lemma ParsedArray(ps: seq<TextPeriod>, qs: seq<Quoting>)
    requires |ps| == |qs| && AllNoSpecial(ps)
    ensures ParseStringAvailability(ArrayText(ps, qs)) == Kept(ps)
  {
    if ps == [] {
      assert ArrayText(ps, qs) == "{}";
    } else {
      BracesAreStripped(Elements(ps, qs));
      UnquotedElements(ps, qs);
      MatchesListed(ps);
    }
  }

  // ---------------------------------------------------------------- periods

  lemma CommaIs(s: string, i: nat)
    requires i < |s| && s[i] == ',' && forall j | 0 <= j < i :: s[j] != ','
    ensures CommaAt(s) == Some(i)
  {
  }

  lemma NoComma(s: string)
    requires NoSpecial(s)
    ensures CommaAt(s) == None
  {
  }

  /** Two bounds without commas are taken apart at the comma and trimmed; an empty one is an error. */
  lemma ParsedBounds(left: string, right: string)
    requires CommaAt(left) == None && CommaAt(right) == None
    ensures ParseStringPeriod("[" + left + "," + right + ")")
            == if left == "" || right == "" then None else Some(TextPeriod(Trim(left), Trim(right)))
  {
    var t := "[" + left + "," + right + ")";
    NothingToTrim(t);
    var inner := t[1..|t| - 1];
    assert inner == left + "," + right;
    CommaIs(inner, |left|);
    assert inner[..|left|] == left && inner[|left| + 1..] == right;
  }

  lemma ParsedPeriod(p: TextPeriod)
    requires NoSpecial(p.start) && NoSpecial(p.end)
    ensures ParseStringPeriod(Print(p))
            == if p.start == "" || p.end == "" then None else Some(TextPeriod(Trim(p.start), Trim(p.end)))
  {
    NoComma(p.start);
    NoComma(p.end);
    ParsedBounds(p.start, p.end);
  }

  /** A text without spaces around it, and not empty. */
  predicate Tidy(t: string) {
    t != "" && !Space(t[0]) && !Space(t[|t| - 1])
  }

  predicate Legible(p: TextPeriod) {
    Tidy(p.start) && Tidy(p.end)
  }

  predicate AllSpace(t: string) {
    forall i | 0 <= i < |t| :: Space(t[i])
  }

  lemma {:induction false} TrimLeftIsExact(t: string) returns (before: string)
    ensures AllSpace(before) && t == before + TrimLeft(t)
    ensures TrimLeft(t) != "" ==> !Space(TrimLeft(t)[0])
  {
    if t != "" && Space(t[0]) {
      var rest := TrimLeftIsExact(t[1..]);
      before := [t[0]] + rest;
    } else {
      before := "";
    }
  }

  lemma {:induction false} TrimRightIsExact(t: string) returns (after: string)
    ensures AllSpace(after) && t == TrimRight(t) + after
    ensures TrimRight(t) != "" ==> !Space(TrimRight(t)[|TrimRight(t)| - 1]) && TrimRight(t)[0] == t[0]
  {
    if t != "" && Space(t[|t| - 1]) {
      var front := t[..|t| - 1];
      var rest := TrimRightIsExact(front);
      after := rest + [t[|t| - 1]];
      assert t == front + [t[|t| - 1]];
    } else {
      after := "";
    }
  }

  /** Trimming takes spaces off both ends and leaves none there. */
  lemma TrimIsExact(t: string) returns (before: string, after: string)
    ensures AllSpace(before) && AllSpace(after) && t == before + Trim(t) + after
    ensures Trim(t) == "" || Tidy(Trim(t))
  {
    before := TrimLeftIsExact(t);
    after := TrimRightIsExact(TrimLeft(t));
  }

  lemma TidyIsTrimmed(t: string)
    ensures t != "" && Trim(t) == t <==> Tidy(t)
  {
    if Tidy(t) {
      NothingToTrim(t);
    }
    if t != "" && Trim(t) == t {
      var before, after := TrimIsExact(t);
    }
  }

  lemma ParsedHasBounds(text: string)
    requires ParseStringPeriod(text).Some?
    ensures exists left, right :: Bounds(Trim(text), left, right)
  {
    var t := Trim(text);
    var inner := t[1..|t| - 1];
    var i := CommaAt(inner).value;
    CommaFree(inner[i + 1..]);
    assert inner == inner[..i] + "," + inner[i + 1..];
    assert t == "[" + inner + ")";
    assert Bounds(t, inner[..i], inner[i + 1..]);
  }

  lemma BoundsAreParsed(text: string, left: string, right: string)
    requires Bounds(Trim(text), left, right)
    ensures ParseStringPeriod(text) == Some(TextPeriod(Trim(left), Trim(right)))
  {
    CommaFree(left);
    CommaFree(right);
    ParsedBounds(left, right);
    NothingToTrim(Trim(text));
  }

  /** A text reads as a period if and only if, but for spaces around it, it is two non-empty bounds without commas,
      between an opening bracket, a comma and a closing parenthesis; the bounds are then what is read, trimmed. */
  lemma ParseSucceedsExactly(text: string)
    ensures ParseStringPeriod(text).Some? <==> exists left, right :: Bounds(Trim(text), left, right)
    ensures forall left, right | Bounds(Trim(text), left, right) ::
              ParseStringPeriod(text) == Some(TextPeriod(Trim(left), Trim(right)))
  {
    if ParseStringPeriod(text).Some? {
      ParsedHasBounds(text);
    }
    forall left, right | Bounds(Trim(text), left, right)
      ensures ParseStringPeriod(text) == Some(TextPeriod(Trim(left), Trim(right)))
    {
      BoundsAreParsed(text, left, right);
    }
  }

  predicate Bounds(t: string, left: string, right: string) {
    t == "[" + left + "," + right + ")" && left != "" && right != "" && ',' !in left && ',' !in right
  }

  lemma CommaFree(s: string)
    ensures CommaAt(s) == None <==> ',' !in s
  {
  }

  function Prints(ps: seq<TextPeriod>): seq<string> {
    if ps == [] then [] else [Print(ps[0])] + Prints(ps[1..])
  }

  lemma {:induction false} ParsedPrints(ps: seq<TextPeriod>)
    requires AllNoSpecial(ps)
    ensures ParseAll(Prints(ps)) == Some(ps) <==> forall p | p in ps :: Legible(p)
  {
    if ps != [] {
      ParsedPeriod(ps[0]);
      TidyIsTrimmed(ps[0].start);
      TidyIsTrimmed(ps[0].end);
      ParsedPrints(ps[1..]);
      assert ps == [ps[0]] + ps[1..];
    }
  }

  lemma {:induction false} KeptIsAll(ps: seq<TextPeriod>)
    ensures |Kept(ps)| <= |ps|
    ensures |Kept(ps)| == |ps| <==> forall p | p in ps :: OneLinePeriod(p)
    ensures |Kept(ps)| == |ps| ==> Kept(ps) == Prints(ps)
  {
    if ps != [] {
      KeptIsAll(ps[1..]);
      assert ps == [ps[0]] + ps[1..];
    }
  }

  lemma {:induction false} ParseAllLength(texts: seq<string>)
    ensures ParseAll(texts).Some? ==> |ParseAll(texts).value| == |texts|
  {
    if texts != [] {
      ParseAllLength(texts[1..]);
    }
  }

  /** The array text of a list of periods parses back to the same list, in order, exactly when every timestamp
      is a non-empty text on one line without spaces around it. */
  lemma RoundTrip(ps: seq<TextPeriod>, qs: seq<Quoting>)
    requires |ps| == |qs| && AllNoSpecial(ps)
    ensures AvailabilityPeriodDates(Text(ArrayText(ps, qs))) == Some(ps) <==>
              forall p | p in ps :: OneLinePeriod(p) && Legible(p)
  {
    ParsedArray(ps, qs);
    KeptIsAll(ps);
    ParsedPrints(ps);
    ParseAllLength(Kept(ps));
  }

  /** The strings the service assigns parse back even without a round trip through the database. */
  lemma AssignedRoundTrip(ps: seq<TextPeriod>)
    requires AllNoSpecial(ps)
    ensures AvailabilityPeriodDates(Items(Prints(ps))) == Some(ps) <==> forall p | p in ps :: Legible(p)
  {
    ParsedPrints(ps);
  }

  function Quoted(t: string): string {
    "\"" + t + "\""
  }

  /** A booking's single period is read by the same parser, which leaves the quotes of the bounds alone. */
  lemma QuotesStayInPeriods(p: TextPeriod)
    requires NoSpecial(p.start) && NoSpecial(p.end)
    ensures ParseStringPeriod(Print(TextPeriod(Quoted(p.start), Quoted(p.end))))
            == Some(TextPeriod(Quoted(p.start), Quoted(p.end)))
  {
    var left, right := Quoted(p.start), Quoted(p.end);
    ParsedBounds(left, right);
    NothingToTrim(left);
    NothingToTrim(right);
  }
}
