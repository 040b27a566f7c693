/** HTML escaping of console output: ten whole-string rewrites, one after the other. */
module ConsoleOutput {
  import opened Text

  datatype OutputType = Command | ErrorMessage | Response

  datatype Rewrite = Rewrite(key: char, text: string)

  /** `&` first, then the escape map in the order of its keys: the patterns for the backslash and the bar
      start with a backslash and so come last. */
  const REWRITES: seq<Rewrite> := [
    Rewrite('&', "&amp;"), Rewrite('\n', "&NewLine;"), Rewrite(' ', "&nbsp;"), Rewrite('\"', "&quot;"),
    Rewrite('\'', "&apos;"), Rewrite('-', "&ndash;"), Rewrite('<', "&lt;"), Rewrite('>', "&gt;"),
    Rewrite('\\', "\\\\"), Rewrite('|', "&#124;")]

  function ApplyAll(rs: seq<Rewrite>, s: string): string {
    if rs == [] then s else ApplyAll(rs[1..], ReplaceAll(s, rs[0].key, rs[0].text))
  }

  /** What one character becomes, looked up once. */
  function Escape(rs: seq<Rewrite>, c: char): string {
    if rs == [] then [c] else if rs[0].key == c then rs[0].text else Escape(rs[1..], c)
  }

  function EscapeEach(rs: seq<Rewrite>, s: string): string {
    if s == "" then "" else Escape(rs, s[0]) + EscapeEach(rs, s[1..])
  }

  /** No rewrite touches what an earlier one has put in. */
  ghost predicate Settled(rs: seq<Rewrite>) {
    forall i, j | 0 <= i < j < |rs| :: rs[j].key !in rs[i].text
  }

  lemma {:induction false} EscapeNothing(rs: seq<Rewrite>, s: string)
    requires forall j | 0 <= j < |rs| :: rs[j].key !in s
    ensures EscapeEach(rs, s) == s
  {
    if s != "" {
      EscapeOther(rs, s[0]);
      EscapeNothing(rs, s[1..]);
    }
  }

  lemma {:induction false} EscapeOther(rs: seq<Rewrite>, c: char)
    requires forall j | 0 <= j < |rs| :: rs[j].key != c
    ensures Escape(rs, c) == [c]
  {
    if rs != [] {
      assert rs[0].key != c;
      forall j | 0 <= j < |rs[1..]| ensures rs[1..][j].key != c { assert rs[j + 1].key != c; }
      EscapeOther(rs[1..], c);
    }
  }

  lemma {:induction false} EscapeAppend(rs: seq<Rewrite>, a: string, b: string)
    ensures EscapeEach(rs, a + b) == EscapeEach(rs, a) + EscapeEach(rs, b)
  {
    if a == "" {
      assert a + b == b;
    } else {
      assert (a + b)[1..] == a[1..] + b;
      EscapeAppend(rs, a[1..], b);
    }
  }

  /** Rewriting with the first key and escaping the rest is escaping with all. */
  lemma {:induction false} FirstRewrite(rs: seq<Rewrite>, s: string)
    requires rs != [] && Settled(rs)
    ensures EscapeEach(rs[1..], ReplaceAll(s, rs[0].key, rs[0].text)) == EscapeEach(rs, s)
  {
    if s != "" {
      FirstRewrite(rs, s[1..]);
      var head := if s[0] == rs[0].key then rs[0].text else [s[0]];
      EscapeAppend(rs[1..], head, ReplaceAll(s[1..], rs[0].key, rs[0].text));
      if s[0] == rs[0].key {
        forall j | 0 <= j < |rs[1..]| ensures rs[1..][j].key !in rs[0].text { assert rs[j + 1].key !in rs[0].text; }
        EscapeNothing(rs[1..], rs[0].text);
      } else {
        assert head[1..] == "";
        assert EscapeEach(rs[1..], head) == Escape(rs[1..], s[0]);
      }
    }
  }

  /** Settled rewrites, applied one after the other, are one substitution per character. */
  lemma {:induction false} RewritesAreSubstitution(rs: seq<Rewrite>, s: string)
    requires Settled(rs)
    ensures ApplyAll(rs, s) == EscapeEach(rs, s)
  {
    if rs == [] {
      EscapeNothing([], s);
    } else {
      assert Settled(rs[1..]) by {
        forall i, j | 0 <= i < j < |rs[1..]| ensures rs[1..][j].key !in rs[1..][i].text {
          assert rs[j + 1].key !in rs[i + 1].text;
        }
      }
      FirstRewrite(rs, s);
      RewritesAreSubstitution(rs[1..], ReplaceAll(s, rs[0].key, rs[0].text));
    }
  }

  /** What entities are written with. */
  predicate IsEntityChar(c: char) {
    c == '&' || c == ';' || c == '#' || '0' <= c <= '9' || 'a' <= c <= 'z' || 'A' <= c <= 'Z'
  }

  lemma KeysAreNot(j: nat)
    requires 1 <= j < |REWRITES|
    ensures !IsEntityChar(REWRITES[j].key)
  {
  }

  lemma TextsAre(i: nat)
    requires i < |REWRITES| && i != 8
    ensures forall k | 0 <= k < |REWRITES[i].text| :: IsEntityChar(REWRITES[i].text[k])
  {
  }

  lemma RewritesSettled()
    ensures Settled(REWRITES)
  {
    assert REWRITES[8].text == "\\\\" && REWRITES[9].key == '|' && |REWRITES| == 10;
    forall i, j | 0 <= i < j < |REWRITES| ensures REWRITES[j].key !in REWRITES[i].text {
      hide REWRITES;
      if i != 8 {
        TextsAre(i);
        KeysAreNot(j);
      }
    }
  }

  function Render(s: string): string {
    EscapeEach(REWRITES, s)
  }

  /** The markup around an escaped text. */
  function Marked(kind: OutputType, value: string): string {
    match kind
    case Command => "<b>" + value + "</b>"
    case ErrorMessage => "<b class=\"error\">" + value + "</b>"
    case Response => value
  }

  /** A script that appends a string to the element of a session. */
  function Script(sessionId: nat, value: string): string {
    "<script>document.getElementById('s" + Decimal(sessionId) + "').innerHTML += '" + (value + "';</script>")
  }

  /** `renderOutput`. */
  method RenderOutput(sessionId: nat, kind: OutputType, text: string) returns (output: string)
    ensures output == Script(sessionId, Marked(kind, Render(text)))
  {
    var value := text;
    var i := 0;
    while i < |REWRITES|
      invariant i <= |REWRITES|
      invariant ApplyAll(REWRITES[i..], value) == ApplyAll(REWRITES, text)
    {
      hide REWRITES;
      assert REWRITES[i..][1..] == REWRITES[i + 1..];
      value := ReplaceAll(value, REWRITES[i].key, REWRITES[i].text);
      i := i + 1;
    }
    hide REWRITES;
    RewritesSettled();
    RewritesAreSubstitution(REWRITES, text);
    if kind.Command? {
      value := "<b>" + value + "</b>";
    } else if kind.ErrorMessage? {
      value := "<b class=\"error\">" + value + "</b>";
    }
    output := "<script>document.getElementById('s" + Decimal(sessionId) + "').innerHTML += '" + (value + "';</script>");
  }

  // ---------- what the escaped text cannot contain, and that nothing is lost ----------

  /** Characters that would end the quoted string, the line or the text node. */
  predicate IsDangerous(c: char) {
    c == '\"' || c == '\'' || c == '\n' || c == '<' || c == '>'
  }

  /** A body of a quoted script string: no dangerous character, and every backslash escaped by another. */
  predicate IsQuoted(s: string) {
    if s == "" then true
    else if s[0] == '\\' then |s| > 1 && s[1] == '\\' && IsQuoted(s[2..])
    else !IsDangerous(s[0]) && IsQuoted(s[1..])
  }

  /** One row of the table of substitutions. */
  function Code(c: char): string {
    match c
    case '&' => "&amp;"
    case '\n' => "&NewLine;"
    case ' ' => "&nbsp;"
    case '\"' => "&quot;"
    case '\'' => "&apos;"
    case '-' => "&ndash;"
    case '<' => "&lt;"
    case '>' => "&gt;"
    case '\\' => "\\\\"
    case '|' => "&#124;"
    case _ => [c]
  }

  lemma EscapeIsCode(c: char)
    ensures Escape(REWRITES, c) == Code(c)
  {
    EscapeAt(REWRITES, c, 0);
  }

  lemma {:induction false} EscapeAt(rs: seq<Rewrite>, c: char, i: nat)
    requires i <= |REWRITES| && rs == REWRITES[i..]
    requires forall j | 0 <= j < i :: REWRITES[j].key != c
    ensures Escape(rs, c) == Code(c)
    decreases |rs|
  {
    if i < |REWRITES| {
      assert rs[0] == REWRITES[i] && rs[1..] == REWRITES[i + 1..];
      if rs[0].key != c {
        EscapeAt(rs[1..], c, i + 1);
      }
    } else {
      assert REWRITES[0].key != c && REWRITES[1].key != c && REWRITES[2].key != c && REWRITES[3].key != c
          && REWRITES[4].key != c && REWRITES[5].key != c && REWRITES[6].key != c && REWRITES[7].key != c
          && REWRITES[8].key != c && REWRITES[9].key != c;
    }
  }

  lemma {:induction false} QuotedPlain(a: string, b: string)
    requires IsQuoted(b) && forall i | 0 <= i < |a| :: a[i] != '\\' && !IsDangerous(a[i])
    ensures IsQuoted(a + b)
  {
    if a == "" {
      assert a + b == b;
    } else {
      assert (a + b)[1..] == a[1..] + b;
      QuotedPlain(a[1..], b);
    }
  }

  lemma CodePlain(c: char)
    ensures c != '\\' ==> forall i | 0 <= i < |Code(c)| :: Code(c)[i] != '\\' && !IsDangerous(Code(c)[i])
  {
  }

  lemma QuotedStep(c: char, rest: string)
    requires IsQuoted(rest)
    ensures IsQuoted(Code(c) + rest)
  {
    if c == '\\' {
      assert (Code(c) + rest)[2..] == rest;
    } else {
      CodePlain(c);
      QuotedPlain(Code(c), rest);
    }
  }

  /** The escaped text has no quote, no newline, no angle bracket and no lone backslash. */
  lemma {:induction false} RenderIsQuoted(s: string)
    ensures IsQuoted(Render(s))
  {
    if s != "" {
      RenderIsQuoted(s[1..]);
      EscapeIsCode(s[0]);
      QuotedStep(s[0], Render(s[1..]));
    }
    hide IsQuoted, Code, Escape;
  }

  /** The string that a script reads after an opening quote: up to the first quote that no backslash escapes;
      None when the line ends first. */
  function Literal(s: string): Option<string> {
    if s == "" || s[0] == '\n' || s[0] == '\r' then None
    else if s[0] == '\'' then Some("")
    else
      var n := if s[0] == '\\' && |s| > 1 then 2 else 1;
      match Literal(s[n..])
      case None => None
      case Some(rest) => Some(s[..n] + rest)
  }

  /** A text that stays inside its quotes, with every backslash escaped by another. */
  predicate StaysInside(s: string) {
    if s == "" then true
    else if s[0] == '\\' then |s| > 1 && s[1] == '\\' && StaysInside(s[2..])
    else s[0] != '\'' && s[0] != '\n' && StaysInside(s[1..])
  }

  lemma {:induction false} InsideAppend(a: string, b: string)
    requires StaysInside(a) && StaysInside(b)
    ensures StaysInside(a + b)
    decreases |a|
  {
    if a == "" {
      assert a + b == b;
    } else {
      var n := if a[0] == '\\' then 2 else 1;
      assert (a + b)[n..] == a[n..] + b;
      InsideAppend(a[n..], b);
    }
  }

  lemma {:induction false} QuotedInside(s: string)
    requires IsQuoted(s)
    ensures StaysInside(s)
    decreases |s|
  {
    if s != "" {
      QuotedInside(s[if s[0] == '\\' then 2 else 1..]);
    }
  }

  lemma {:induction false} LiteralOf(a: string, rest: string)
    requires StaysInside(a)
    ensures Literal(a + ("'" + rest)) == if '\r' in a then None else Some(a)
    decreases |a|
  {
    if a == "" {
      assert a + ("'" + rest) == "'" + rest;
    } else {
      var n := if a[0] == '\\' then 2 else 1;
      assert (a + ("'" + rest))[n..] == a[n..] + ("'" + rest);
      LiteralOf(a[n..], rest);
      assert (a + ("'" + rest))[..n] == a[..n];
      assert a[..n] + a[n..] == a;
      assert '\r' in a <==> '\r' in a[..n] || '\r' in a[n..];
    }
  }

  lemma CodeReturn(c: char)
    ensures '\r' in Code(c) <==> c == '\r'
  {
    if c == '\r' {
      assert Code(c)[0] == '\r';
    }
  }

  lemma {:induction false} ReturnStays(s: string)
    ensures '\r' in Render(s) <==> '\r' in s
  {
    hide Escape, Code, REWRITES;
    if s != "" {
      EscapeIsCode(s[0]);
      CodeReturn(s[0]);
      ReturnStays(s[1..]);
      assert '\r' in Render(s) <==> '\r' in Code(s[0]) || '\r' in Render(s[1..]);
      assert '\r' in s <==> s[0] == '\r' || '\r' in s[1..];
    }
  }

  lemma {:induction false} PlainInside(s: string)
    requires forall i | 0 <= i < |s| :: s[i] != '\\' && s[i] != '\'' && s[i] != '\n'
    ensures StaysInside(s)
  {
    if s != "" {
      PlainInside(s[1..]);
    }
  }

  lemma MarkedInside(kind: OutputType, value: string)
    requires StaysInside(value)
    ensures StaysInside(Marked(kind, value))
  {
    hide StaysInside;
    PlainInside("<b>");
    PlainInside("</b>");
    PlainInside("<b class=\"error\">");
    InsideAppend("<b>", value);
    InsideAppend("<b>" + value, "</b>");
    InsideAppend("<b class=\"error\">", value);
    InsideAppend("<b class=\"error\">" + value, "</b>");
  }

  /** The script that is written appends one string to the element of its session: a command in bold, an error
      message in bold with the class of errors, and a response as it is. The browser reads the string that was meant
      exactly when the text has no carriage return: that character ends a line of a script like a newline, and is
      not escaped. */
  lemma ScriptReadsOutput(sessionId: nat, kind: OutputType, text: string)
    ensures var output := Script(sessionId, Marked(kind, Render(text)));
            var opening := "<script>document.getElementById('s" + Decimal(sessionId) + "').innerHTML += '";
            var shown := if kind.Command? then "<b>" + Render(text) + "</b>"
                         else if kind.ErrorMessage? then "<b class=\"error\">" + Render(text) + "</b>"
                         else Render(text);
            opening <= output && (Literal(output[|opening|..]) == Some(shown) <==> '\r' !in text)
  {
    hide StaysInside, Literal, Render, Decimal;
    var value := Render(text);
    RenderIsQuoted(text);
    QuotedInside(value);
    ReturnStays(text);
    MarkedInside(kind, value);
    LiteralOf(Marked(kind, value), ";</script>");
    var opening := "<script>document.getElementById('s" + Decimal(sessionId) + "').innerHTML += '";
    assert "'" + ";</script>" == "';</script>";
    assert Script(sessionId, Marked(kind, value)) == opening + (Marked(kind, value) + "';</script>");
  }

  /** The character that an escaped text starts from, told by its first three characters. */
  function FirstOf(s: string): char
    requires s != ""
  {
    if s[0] != '&' || |s| < 3 then s[0]
    else match s[1]
      case 'a' => if s[2] == 'm' then '&' else '\''
      case 'N' => '\n'
      case 'n' => if s[2] == 'b' then ' ' else '-'
      case 'q' => '\"'
      case 'l' => '<'
      case 'g' => '>'
      case '#' => '|'
      case _ => s[0]
  }

  lemma CodeDecodes(c: char, rest: string)
    ensures FirstOf(Code(c) + rest) == c
  {
  }

  /** Two texts that look the same on the page are the same. */
  lemma {:induction false} RenderInjective(a: string, b: string)
    requires Render(a) == Render(b)
    ensures a == b
  {
    if a == "" || b == "" {
      if a != "" { EscapeIsCode(a[0]); }
      if b != "" { EscapeIsCode(b[0]); }
    } else {
      EscapeIsCode(a[0]);
      EscapeIsCode(b[0]);
      CodeDecodes(a[0], Render(a[1..]));
      CodeDecodes(b[0], Render(b[1..]));
      var n := |Code(a[0])|;
      assert Render(a)[n..] == Render(a[1..]) && Render(b)[n..] == Render(b[1..]);
      RenderInjective(a[1..], b[1..]);
    }
  }
}
