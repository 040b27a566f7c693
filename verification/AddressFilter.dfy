/** The address filter of the SOCKS server: filters with `*` are rewritten into regular expressions, and
    the dotted address of a request is matched against them. */
module AddressFilter {
  import opened Text

  // ---------- regular expressions ----------

  /** The part of the ECMAScript grammar that filters are rewritten into: literal characters, escaped
      punctuation, the dot, and the star after any of them. */
  datatype Atom = Any | Lit(c: char)

  datatype Item = Item(atom: Atom, star: bool)

  predicate IsLineEnd(c: char) {
    c == '\n' || c == '\r'
  }

  predicate IsSyntax(c: char) {
    c in "\\^$.*+?()[]{}|"
  }

  function ReadAtom(p: string): Option<(Atom, string)>
    requires p != ""
    ensures ReadAtom(p).Some? ==> |ReadAtom(p).value.1| < |p|
  {
    if p[0] == '.' then Some((Any, p[1..]))
    else if p[0] == '\\' then
      if |p| > 1 && IsSyntax(p[1]) then Some((Lit(p[1]), p[2..])) else None
    else if IsSyntax(p[0]) then None
    else Some((Lit(p[0]), p[1..]))
  }

  /** `regex(p)`; None where the pattern is outside that grammar. */
  function Compile(p: string): Option<seq<Item>>
    decreases |p|
  {
    if p == "" then Some([])
    else
      match ReadAtom(p)
      case None => None
      case Some((atom, rest)) =>
        var star := rest != "" && rest[0] == '*';
        match Compile(if star then rest[1..] else rest)
        case None => None
        case Some(items) => Some([Item(atom, star)] + items)
  }

  predicate Accepts(atom: Atom, c: char) {
    if atom.Any? then !IsLineEnd(c) else c == atom.c
  }

  /** `regex_match`: the items match the whole text. */
  predicate Matches(items: seq<Item>, s: string)
    decreases |items|
  {
    if items == [] then s == ""
    else if items[0].star then
      exists k | 0 <= k <= |s| :: (forall i | 0 <= i < k :: Accepts(items[0].atom, s[i])) && Matches(items[1..], s[k..])
    else s != "" && Accepts(items[0].atom, s[0]) && Matches(items[1..], s[1..])
  }

  // ---------- the translation ----------

  /** `regex_replace` with a pattern that is one character. */
  function Translate(filter: string): string {
    ReplaceAll(ReplaceAll(filter, '.', "\\."), '*', ".*")
  }

  /** A filter in which only the dot and the star are punctuation. */
  predicate IsFilter(f: string) {
    forall i | 0 <= i < |f| :: f[i] == '.' || f[i] == '*' || !IsSyntax(f[i])
  }

  /** What a filter means: a star stands for any text, everything else for itself. */
  predicate Glob(f: string, s: string)
    decreases |f|
  {
    if f == "" then s == ""
    else if f[0] == '*' then exists k | 0 <= k <= |s| :: Glob(f[1..], s[k..])
    else s != "" && s[0] == f[0] && Glob(f[1..], s[1..])
  }

  function ItemOf(c: char): Item {
    if c == '*' then Item(Any, true) else Item(Lit(c), false)
  }

  function ItemsOf(f: string): seq<Item> {
    if f == "" then [] else [ItemOf(f[0])] + ItemsOf(f[1..])
  }

  function CharPattern(c: char): string {
    if c == '.' then "\\." else if c == '*' then ".*" else [c]
  }

  /** The two rewrites together replace each character on its own. */
  lemma TranslateFirst(f: string)
    requires f != ""
    ensures Translate(f) == CharPattern(f[0]) + Translate(f[1..])
  {
    var head := if f[0] == '.' then "\\." else [f[0]];
    ReplaceAppend(head, ReplaceAll(f[1..], '.', "\\."), '*', ".*");
    assert "\\."[1..] == "." && "."[1..] == "" && [f[0]][1..] == "";
    assert ReplaceAll(head, '*', ".*") == CharPattern(f[0]);
  }

  lemma CompileNothing()
    ensures Translate("") == "" && Compile("") == Some(ItemsOf(""))
  {
  }

  /** One character of a filter in front of a pattern that compiles and does not start with a star. */
  lemma CompileFirst(c: char, rest: string, items: seq<Item>)
    requires (c == '.' || c == '*' || !IsSyntax(c)) && Compile(rest) == Some(items) && (rest != "" ==> rest[0] != '*')
    ensures Compile(CharPattern(c) + rest) == Some([ItemOf(c)] + items)
    ensures (CharPattern(c) + rest)[0] != '*'
  {
    var p := CharPattern(c) + rest;
    if c == '.' {
      assert p[2..] == rest;
    } else if c == '*' {
      assert p[1..] == "*" + rest && p[1..][1..] == rest;
    } else {
      assert p[1..] == rest;
    }
  }

  /** The rewritten filter compiles, one item per character. */
  lemma {:induction false} CompileTranslated(f: string)
    requires IsFilter(f)
    ensures Compile(Translate(f)) == Some(ItemsOf(f))
    ensures Translate(f) != "" ==> Translate(f)[0] != '*'
  {
    if f != "" {
      hide Translate, IsSyntax, Compile;
      assert IsFilter(f[1..]) && (f[0] == '.' || f[0] == '*' || !IsSyntax(f[0]));
      CompileTranslated(f[1..]);
      TranslateFirst(f);
      CompileFirst(f[0], Translate(f[1..]), ItemsOf(f[1..]));
    } else {
      hide Compile;
      CompileNothing();
    }
  }

  lemma {:induction false} ItemsMatchGlob(f: string, s: string)
    requires forall i | 0 <= i < |s| :: !IsLineEnd(s[i])
    ensures Matches(ItemsOf(f), s) <==> Glob(f, s)
    decreases |f|
  {
    if f != "" {
      assert ItemsOf(f)[1..] == ItemsOf(f[1..]);
      if f[0] == '*' {
        forall k | 0 <= k <= |s| ensures Matches(ItemsOf(f[1..]), s[k..]) <==> Glob(f[1..], s[k..]) {
          ItemsMatchGlob(f[1..], s[k..]);
        }
      } else if s != "" {
        ItemsMatchGlob(f[1..], s[1..]);
      }
    }
  }

  /** The translation keeps the meaning: for every filter and every one-line text. */
  lemma TranslationKeepsMeaning(f: string, s: string)
    requires IsFilter(f) && forall i | 0 <= i < |s| :: !IsLineEnd(s[i])
    ensures Compile(Translate(f)).Some?
    ensures Matches(Compile(Translate(f)).value, s) <==> Glob(f, s)
  {
    CompileTranslated(f);
    ItemsMatchGlob(f, s);
  }

  // ---------- fields between dots ----------

  function Dots(s: string): nat {
    if s == "" then 0 else (if s[0] == '.' then 1 else 0) + Dots(s[1..])
  }

  lemma {:induction false} DotsAppend(a: string, b: string)
    ensures Dots(a + b) == Dots(a) + Dots(b)
  {
    if a == "" {
      assert a + b == b;
    } else {
      assert (a + b)[1..] == a[1..] + b;
      DotsAppend(a[1..], b);
    }
  }

  lemma DotsSuffix(s: string, k: nat)
    requires k <= |s|
    ensures Dots(s[k..]) <= Dots(s)
  {
    DotsAppend(s[..k], s[k..]);
    assert s == s[..k] + s[k..];
  }

  /** Every dot of the filter needs a dot of its own in the text. */
  lemma {:induction false} GlobDots(f: string, s: string)
    requires Glob(f, s)
    ensures Dots(f) <= Dots(s)
    decreases |f|
  {
    if f != "" {
      if f[0] == '*' {
        var k :| 0 <= k <= |s| && Glob(f[1..], s[k..]);
        GlobDots(f[1..], s[k..]);
        DotsSuffix(s, k);
      } else {
        GlobDots(f[1..], s[1..]);
      }
    }
  }

  predicate NoDot(s: string) {
    '.' !in s
  }

  /** With as many dots left on both sides, no star can reach across a dot. */
  lemma {:induction false} GlobAtDot(a: string, f: string, u: string, s: string)
    requires NoDot(a) && NoDot(u) && Dots(f) == Dots(s)
    ensures Glob(a + ("." + f), u + ("." + s)) <==> Glob(a, u) && Glob(f, s)
    decreases |a|
  {
    var whole, text := a + ("." + f), u + ("." + s);
    if a == "" {
      assert whole == "." + f && whole[1..] == f;
      if u == "" {
        assert text == "." + s && text[1..] == s;
      } else {
        assert text[0] == u[0];
      }
    } else {
      assert whole[0] == a[0] && whole[1..] == a[1..] + ("." + f);
      if a[0] == '*' {
        GlobStarAtDot(a, f, u, s);
      } else if u == "" {
        assert text[0] == '.';
        assert a[0] != '.';
      } else {
        assert text[0] == u[0] && text[1..] == u[1..] + ("." + s);
        GlobAtDot(a[1..], f, u[1..], s);
      }
    }
  }

  lemma OneMoreDot(f: string)
    ensures Dots("." + f) == Dots(f) + 1
  {
    assert ("." + f)[1..] == f;
  }

  /** What is left after the dot has too few dots for a filter that still has its own. */
  lemma {:induction false} TooFewDots(a: string, f: string, u: string, s: string, k: int)
    requires NoDot(a) && Dots(f) == Dots(s) && |u| < k <= |u + ("." + s)|
    ensures !Glob(a + ("." + f), (u + ("." + s))[k..])
  {
    hide Glob, Dots;
    var rest, text := a + ("." + f), u + ("." + s);
    assert text[k..] == s[k - |u| - 1..];
    DotsSuffix(s, k - |u| - 1);
    DotsAppend(a, "." + f);
    OneMoreDot(f);
    if Glob(rest, text[k..]) { GlobDots(rest, text[k..]); }
  }

  lemma {:induction false} GlobStarAtDot(a: string, f: string, u: string, s: string)
    requires NoDot(a) && NoDot(u) && Dots(f) == Dots(s) && a != "" && a[0] == '*'
    ensures Glob(a + ("." + f), u + ("." + s)) <==> Glob(a, u) && Glob(f, s)
    decreases |a|, 0
  {
    var whole, text := a + ("." + f), u + ("." + s);
    var rest := a[1..] + ("." + f);
    assert whole[1..] == rest;
    forall k | 0 <= k <= |u| ensures Glob(rest, text[k..]) <==> Glob(a[1..], u[k..]) && Glob(f, s) {
      assert text[k..] == u[k..] + ("." + s);
      assert NoDot(u[k..]);
      GlobAtDot(a[1..], f, u[k..], s);
    }
    forall k | |u| < k <= |text| ensures !Glob(rest, text[k..]) { TooFewDots(a[1..], f, u, s, k); }
    hide NoDot, Dots;
    if Glob(a, u) && Glob(f, s) {
      var k :| 0 <= k <= |u| && Glob(a[1..], u[k..]);
      assert Glob(rest, text[k..]);
    }
  }

  /** The text before the first dot. */
  function Field(s: string): (r: string)
    ensures |r| <= |s| && r == s[..|r|] && NoDot(r)
    ensures |r| < |s| ==> s[|r|] == '.'
  {
    if s == "" || s[0] == '.' then "" else [s[0]] + Field(s[1..])
  }

  lemma {:induction false} NoDotNoDots(s: string)
    requires NoDot(s)
    ensures Dots(s) == 0
  {
    if s != "" {
      NoDotNoDots(s[1..]);
    }
  }

  function AfterField(s: string): string {
    if |Field(s)| < |s| then s[|Field(s)| + 1..] else ""
  }

  lemma SplitField(s: string)
    requires Dots(s) > 0
    ensures |Field(s)| < |s| && s == Field(s) + ("." + AfterField(s)) && Dots(AfterField(s)) == Dots(s) - 1
  {
    NoDotNoDots(Field(s));
    if |Field(s)| == |s| {
      assert Field(s) == s;
    }
    var a, b := Field(s), AfterField(s);
    assert s == a + ("." + b);
    DotsAppend(a, "." + b);
    assert ("." + b)[1..] == b;
  }

  // ---------- addresses ----------

  lemma DigitsNoDot(n: nat)
    ensures NoDot(Decimal(n)) && Dots(Decimal(n)) == 0
  {
    assert forall i | 0 <= i < |Decimal(n)| :: IsDigit(Decimal(n)[i]);
    NoDotNoDots(Decimal(n));
  }

  lemma DotField(a: string, b: string)
    requires Dots(a) == 0
    ensures Dots(a + ("." + b)) == 1 + Dots(b)
  {
    DotsAppend(a, "." + b);
    assert ("." + b)[1..] == b;
  }

  /** With three dots in the filter and four texts without a dot, each field is matched against its text. */
  lemma FilterByFields(f: string, d0: string, d1: string, d2: string, d3: string)
    requires Dots(f) == 3 && Dots(d0) == Dots(d1) == Dots(d2) == Dots(d3) == 0
    requires NoDot(d0) && NoDot(d1) && NoDot(d2)
    ensures var g := AfterField(f);
            var h := AfterField(g);
            && f == Field(f) + ("." + (Field(g) + ("." + (Field(h) + ("." + AfterField(h))))))
            && (Glob(f, d0 + ("." + (d1 + ("." + (d2 + ("." + d3)))))) <==>
                  Glob(Field(f), d0) && Glob(Field(g), d1) && Glob(Field(h), d2) && Glob(AfterField(h), d3))
  {
    SplitField(f);
    var g := AfterField(f);
    SplitField(g);
    var h := AfterField(g);
    SplitField(h);
    DotField(d2, d3);
    DotField(d1, d2 + ("." + d3));
    GlobAtDot(Field(f), g, d0, d1 + ("." + (d2 + ("." + d3))));
    GlobAtDot(Field(g), h, d1, d2 + ("." + d3));
    GlobAtDot(Field(h), AfterField(h), d2, d3);
  }

  /** Field by field: the fields of the filter are matched against the bytes of the address in their order, and
      against nothing else. */
  lemma FilterByOctets(f: string, ip: Ip, b0: nat, b1: nat, b2: nat, b3: nat)
    requires Dots(f) == 3 && HasBytes(ip, b0, b1, b2, b3)
    ensures var g := AfterField(f);
            var h := AfterField(g);
            && f == Field(f) + ("." + (Field(g) + ("." + (Field(h) + ("." + AfterField(h))))))
            && (Glob(f, DottedQuad(ip)) <==>
                  Glob(Field(f), Decimal(b0)) && Glob(Field(g), Decimal(b1))
                  && Glob(Field(h), Decimal(b2)) && Glob(AfterField(h), Decimal(b3)))
  {
    hide HasBytes, DottedQuad, Glob, Decimal, Field, AfterField, Dots, NoDot;
    QuadOfAddress(ip, b0, b1, b2, b3);
    DigitsNoDot(b0);
    DigitsNoDot(b1);
    DigitsNoDot(b2);
    DigitsNoDot(b3);
    FilterByFields(f, Decimal(b0), Decimal(b1), Decimal(b2), Decimal(b3));
  }

  lemma QuadOneLine(ip: Ip)
    ensures forall i | 0 <= i < |DottedQuad(ip)| :: !IsLineEnd(DottedQuad(ip)[i])
  {
    assert forall n: nat, i | 0 <= i < |Decimal(n)| :: IsDigit(Decimal(n)[i]);
  }

  // ---------- the configuration ----------

  datatype Command = Connect | Bind | Other

  function KeyOf(command: Command): string {
    match command
    case Connect => "c"
    case Bind => "b"
    case Other => ""
  }

  /** `line >> permit >> type >> filterString`. */
  function WordAt(line: string, i: nat): string {
    var ts := Tokens(line);
    if i < |ts| then ts[i] else ""
  }

  predicate Grants(line: string, key: string) {
    WordAt(line, 0) == "permit" && WordAt(line, 1) == key
  }

  /** The filters the configuration lists for a kind of command, as written. */
  function FiltersOf(lines: seq<string>, key: string): seq<string> {
    if lines == [] then []
    else (if Grants(lines[0], key) then [WordAt(lines[0], 2)] else []) + FiltersOf(lines[1..], key)
  }

  function Translated(filters: seq<string>): seq<string> {
    if filters == [] then [] else [Translate(filters[0])] + Translated(filters[1..])
  }

  /** The meaning of a configuration: some line grants the command to a filter that the address fits. */
  ghost predicate Permits(config: string, command: Command, ip: Ip) {
    command != Other &&
    exists line :: line in Lines(config) && Grants(line, KeyOf(command)) && Glob(WordAt(line, 2), DottedQuad(ip))
  }

  ghost predicate AllFilters(config: string) {
    forall line | line in Lines(config) :: IsFilter(WordAt(line, 2))
  }

  lemma {:induction false} FilterListed(lines: seq<string>, key: string, f: string)
    ensures f in FiltersOf(lines, key) <==> exists i | 0 <= i < |lines| :: Grants(lines[i], key) && WordAt(lines[i], 2) == f
  {
    if lines != [] {
      FilterListed(lines[1..], key, f);
      assert forall i | 1 <= i < |lines| :: lines[i] == lines[1..][i - 1];
      assert f in FiltersOf(lines[1..], key) ==>
             exists i | 1 <= i < |lines| :: Grants(lines[i], key) && WordAt(lines[i], 2) == f;
    }
  }

  lemma {:induction false} TranslatedAt(filters: seq<string>)
    ensures |Translated(filters)| == |filters|
    ensures forall i | 0 <= i < |filters| :: Translated(filters)[i] == Translate(filters[i])
  {
    if filters != [] {
      TranslatedAt(filters[1..]);
    }
  }

  lemma {:induction false} TranslatedAppend(a: seq<string>, b: seq<string>)
    ensures Translated(a + b) == Translated(a) + Translated(b)
  {
    if a == [] {
      assert a + b == b;
    } else {
      assert (a + b)[1..] == a[1..] + b;
      TranslatedAppend(a[1..], b);
    }
  }

  /** The words of the line are `permit`, the key and a filter that the address fits. */
  ghost predicate Lists(line: string, key: string, address: string) {
    var ws := Tokens(line);
    |ws| >= 3 && ws[0] == "permit" && ws[1] == key && Glob(ws[2], address)
  }

  ghost predicate Listed(config: string, key: string, address: string) {
    exists line :: line in Lines(config) && Lists(line, key, address)
  }

  lemma GrantsLists(line: string, key: string, address: string)
    requires key != "" && address != ""
    ensures Grants(line, key) && Glob(WordAt(line, 2), address) <==> Lists(line, key, address)
  {
    hide Tokens;
  }

  lemma PermitsListed(config: string, command: Command, ip: Ip)
    requires command != Other && KeyOf(command) != "" && DottedQuad(ip) != ""
    ensures Permits(config, command, ip) <==> Listed(config, KeyOf(command), DottedQuad(ip))
  {
    hide DottedQuad, Lines, Grants, WordAt, Lists, Glob, KeyOf;
    forall line
      ensures Grants(line, KeyOf(command)) && Glob(WordAt(line, 2), DottedQuad(ip))
              <==> Lists(line, KeyOf(command), DottedQuad(ip))
    {
      GrantsLists(line, KeyOf(command), DottedQuad(ip));
    }
  }

  /** CONNECT is permitted by a line `permit c f` and BIND by a line `permit b f` whose filter the address fits,
      written as the decimals of its bytes in their order; and nothing else is permitted. */
  lemma PermitsMeaning(config: string, ip: Ip, b0: nat, b1: nat, b2: nat, b3: nat)
    requires HasBytes(ip, b0, b1, b2, b3)
    ensures var address := Decimal(b0) + ("." + (Decimal(b1) + ("." + (Decimal(b2) + ("." + Decimal(b3))))));
            && (Permits(config, Connect, ip) <==> Listed(config, "c", address))
            && (Permits(config, Bind, ip) <==> Listed(config, "b", address))
            && !Permits(config, Other, ip)
  {
    hide HasBytes, DottedQuad, Listed, Decimal;
    QuadOfAddress(ip, b0, b1, b2, b3);
    PermitsListed(config, Connect, ip);
    PermitsListed(config, Bind, ip);
  }

  class Firewall {
    /** The configuration file's contents, if it can be opened. */
    const configFile: Option<string>
    var connectIpFilters: seq<string>
    var bindIpFilters: seq<string>

    constructor (configFile: Option<string>)
      ensures this.configFile == configFile && connectIpFilters == bindIpFilters == []
    {
      this.configFile := configFile;
      connectIpFilters, bindIpFilters := [], [];
    }

    method LoadConfigFile() returns (ok: bool)
      modifies this
      ensures ok == configFile.Some?
      ensures !ok ==> connectIpFilters == old(connectIpFilters) && bindIpFilters == old(bindIpFilters)
      ensures ok ==> connectIpFilters == old(connectIpFilters) + Translated(FiltersOf(Lines(configFile.value), "c"))
      ensures ok ==> bindIpFilters == old(bindIpFilters) + Translated(FiltersOf(Lines(configFile.value), "b"))
    {
      if configFile.None? {
        return false;
      }
      var lines := Lines(configFile.value);
      var i := 0;
      while i < |lines|
        invariant i <= |lines|
        invariant connectIpFilters + Translated(FiltersOf(lines[i..], "c"))
               == old(connectIpFilters) + Translated(FiltersOf(lines, "c"))
        invariant bindIpFilters + Translated(FiltersOf(lines[i..], "b"))
               == old(bindIpFilters) + Translated(FiltersOf(lines, "b"))
      {
        var line := lines[i];
        FilterFirst(lines, i, "c", connectIpFilters);
        FilterFirst(lines, i, "b", bindIpFilters);
        i := i + 1;
        var permit, kind, filterString := WordAt(line, 0), WordAt(line, 1), WordAt(line, 2);
        if permit != "permit" {
          continue;
        }
        filterString := ReplaceAll(filterString, '.', "\\.");
        filterString := ReplaceAll(filterString, '*', ".*");
        if kind == "c" {
          connectIpFilters := connectIpFilters + [filterString];
        } else if kind == "b" {
          bindIpFilters := bindIpFilters + [filterString];
        }
      }
      return true;
    }

    /** Some filter of the list matches the address. */
    method MatchAny(filters: seq<string>, address: string) returns (found: bool)
      requires forall i | 0 <= i < |filters| :: Compile(filters[i]).Some?
      ensures found <==> exists i | 0 <= i < |filters| :: Matches(Compile(filters[i]).value, address)
    {
      var i := 0;
      while i < |filters|
        invariant i <= |filters|
        invariant forall j | 0 <= j < i :: !Matches(Compile(filters[j]).value, address)
      {
        if Matches(Compile(filters[i]).value, address) {
          return true;
        }
        i := i + 1;
      }
      return false;
    }

    /** Whatever has been loaded so far comes from the configuration; loading it again only repeats it. */
    ghost predicate Valid()
      reads this
    {
      configFile.Some? ==>
        && (forall f | f in connectIpFilters :: f in Translated(FiltersOf(Lines(configFile.value), "c")))
        && (forall f | f in bindIpFilters :: f in Translated(FiltersOf(Lines(configFile.value), "b")))
    }

    method IsPermit(command: Command, ip: Ip) returns (permit: bool)
      requires Valid()
      requires configFile.Some? ==> AllFilters(configFile.value)
      modifies this
      ensures Valid()
      ensures permit <==> configFile.Some? && Permits(configFile.value, command, ip)
    {
      var loaded := LoadConfigFile();
      if !loaded {
        return false;
      }
      if command == Connect {
        FiltersMean(configFile.value, command, ip, connectIpFilters);
        permit := MatchAny(connectIpFilters, DottedQuad(ip));
      } else if command == Bind {
        FiltersMean(configFile.value, command, ip, bindIpFilters);
        permit := MatchAny(bindIpFilters, DottedQuad(ip));
      } else {
        permit := false;
      }
    }
  }

  lemma FilterFirst(lines: seq<string>, i: nat, key: string, before: seq<string>)
    requires i < |lines|
    ensures before + Translated(FiltersOf(lines[i..], key))
         == (if Grants(lines[i], key) then before + [Translate(WordAt(lines[i], 2))] else before)
            + Translated(FiltersOf(lines[i + 1..], key))
  {
    assert lines[i..][1..] == lines[i + 1..];
    var first := if Grants(lines[i], key) then [WordAt(lines[i], 2)] else [];
    TranslatedAppend(first, FiltersOf(lines[i + 1..], key));
    if Grants(lines[i], key) {
      assert first[1..] == [] && Translated(first) == [Translate(WordAt(lines[i], 2))];
    }
  }

  /** The translated filters of a command accept an address exactly when the configuration permits it. */
  lemma FiltersMean(config: string, command: Command, ip: Ip, fs: seq<string>)
    requires AllFilters(config) && command != Other
    requires forall f :: f in fs <==> f in Translated(FiltersOf(Lines(config), KeyOf(command)))
    ensures && (forall i | 0 <= i < |fs| :: Compile(fs[i]).Some?)
            && ((exists i | 0 <= i < |fs| :: Matches(Compile(fs[i]).value, DottedQuad(ip))) <==> Permits(config, command, ip))
  {
    var lines, key, address := Lines(config), KeyOf(command), DottedQuad(ip);
    var written := FiltersOf(lines, key);
    TranslatedAt(written);
    QuadOneLine(ip);
    forall i | 0 <= i < |written|
      ensures IsFilter(written[i]) && Compile(Translate(written[i])).Some?
      ensures Matches(Compile(Translate(written[i])).value, address) <==> Glob(written[i], address)
    {
      FilterListed(lines, key, written[i]);
      assert written[i] in written;
      TranslationKeepsMeaning(written[i], address);
    }
    forall i | 0 <= i < |fs| ensures exists j :: 0 <= j < |written| && fs[i] == Translate(written[j]) {
      assert fs[i] in Translated(written);
    }
    if i :| 0 <= i < |fs| && Matches(Compile(fs[i]).value, address) {
      var j :| 0 <= j < |written| && fs[i] == Translate(written[j]);
      FilterListed(lines, key, written[j]);
      assert written[j] in written;
    }
    if line :| line in lines && Grants(line, key) && Glob(WordAt(line, 2), address) {
      FilterListed(lines, key, WordAt(line, 2));
      var j :| 0 <= j < |written| && written[j] == WordAt(line, 2);
      assert Translated(written)[j] in Translated(written);
      var i :| 0 <= i < |fs| && fs[i] == Translate(written[j]);
    }
  }
}
