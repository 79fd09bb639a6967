/** The readings of a line of a configuration file, each as the form of the lines it reads. */
module CodexGrammar {
  import opened Options
  import opened Sequences
  import opened CodexLines

  // ---------------------------------------------------------------------------
  // Forms
  // ---------------------------------------------------------------------------

  /** White space and line ends of JavaScript. */
  predicate IsBlankChar(c: char) {
    c in {'\t', '\n', '\U{000B}', '\U{000C}', '\r', ' ', '\U{00A0}', '\U{1680}', '\U{2000}', '\U{2001}', '\U{2002}',
          '\U{2003}', '\U{2004}', '\U{2005}', '\U{2006}', '\U{2007}', '\U{2008}', '\U{2009}', '\U{200A}', '\U{2028}',
          '\U{2029}', '\U{202F}', '\U{205F}', '\U{3000}', '\U{FEFF}'}
  }

  predicate IsBlank(s: string) {
    forall i | 0 <= i < |s| :: IsBlankChar(s[i])
  }

  /** No blanks at the ends. */
  predicate IsSnug(s: string) {
    s != "" ==> !IsBlankChar(s[0]) && !IsBlankChar(s[|s| - 1])
  }

  predicate IsComment(s: string) {
    s != "" ==> s[0] == '#'
  }

  /** A line between blanks. */
  ghost predicate IsTrimmed(line: string, core: string) {
    IsSnug(core) && exists pre, post :: IsBlank(pre) && IsBlank(post) && line == pre + (core + post)
  }

  /** A line between blanks and before a comment, if there is one. */
  ghost predicate IsUncommented(line: string, core: string) {
    && IsSnug(core) && '#' !in core
    && exists pre, post, comment :: IsBlank(pre) && IsBlank(post) && IsComment(comment) && line == pre + (core + (post + comment))
  }

  /** A line behind its first mark of a comment. */
  ghost predicate IsBehindHash(line: string, rest: string) {
    exists pre :: IsBlank(pre) && line == pre + ("#" + rest)
  }

  /** A section header. */
  predicate IsHeader(core: string, name: string) {
    core == "[" + (name + "]") && name != "" && ']' !in name
  }

  predicate IsLetter(c: char) {
    'A' <= c <= 'Z' || 'a' <= c <= 'z' || '0' <= c <= '9' || c in {'_', '.', '-'}
  }

  predicate IsKeyName(key: string) {
    key != "" && forall i | 0 <= i < |key| :: IsLetter(key[i])
  }

  /** A key, an equals sign, and something. */
  ghost predicate SetsKey(core: string, key: string) {
    IsKeyName(key) && exists blank, rest :: IsBlank(blank) && core == key + (blank + ("=" + rest))
  }

  /** A key, an equals sign and a value. */
  ghost predicate IsEntry(core: string, e: Entry) {
    && IsKeyName(e.key) && e.value != "" && IsSnug(e.value) && (forall i | 0 <= i < |e.value| :: !IsLineBreak(e.value[i]))
    && exists blank, gap :: IsBlank(blank) && IsBlank(gap) && core == e.key + (blank + ("=" + (gap + e.value)))
  }

  // ---------------------------------------------------------------------------
  // Trimming
  // ---------------------------------------------------------------------------

  lemma WhiteSays(c: char)
    ensures IsWhite(c) <==> IsBlankChar(c)
    ensures IsKeyChar(c) <==> IsLetter(c)
  {
  }

  lemma AllWhiteSays(s: string)
    ensures IsBlank(s) <==> forall i | 0 <= i < |s| :: IsWhite(s[i])
    ensures s != "" ==> (IsWhite(s[0]) <==> IsBlankChar(s[0])) && (IsWhite(s[|s| - 1]) <==> IsBlankChar(s[|s| - 1]))
    ensures (forall i | 0 <= i < |s| :: IsKeyChar(s[i])) <==> (forall i | 0 <= i < |s| :: IsLetter(s[i]))
  {
    forall i | 0 <= i < |s|
      ensures (IsWhite(s[i]) <==> IsBlankChar(s[i])) && (IsKeyChar(s[i]) <==> IsLetter(s[i]))
    {
      WhiteSays(s[i]);
    }
  }

  /** Cutting blanks off the front. */
  lemma FrontForm(s: string) returns (pre: string)
    ensures IsBlank(pre) && s == pre + TrimStart(s)
  {
    TrimStartCuts(s);
    pre := s[..|s| - |TrimStart(s)|];
    AllWhiteSays(pre);
    assert s == pre + s[|pre|..];
  }

  lemma EndForm(s: string) returns (post: string)
    ensures IsBlank(post) && s == TrimEnd(s) + post
  {
    TrimEndCuts(s);
    post := s[|TrimEnd(s)|..];
    AllWhiteSays(post);
    assert s == s[..|TrimEnd(s)|] + post;
  }

  lemma {:induction false} FrontOf(pre: string, rest: string)
    requires IsBlank(pre) && (rest != "" ==> !IsBlankChar(rest[0]))
    ensures TrimStart(pre + rest) == rest
  {
    if pre == "" {
      Units(rest);
      AllWhiteSays(rest);
    } else {
      assert (pre + rest)[0] == pre[0] && (pre + rest)[1..] == pre[1..] + rest;
      WhiteSays(pre[0]);
      FrontOf(pre[1..], rest);
    }
  }

  lemma {:induction false} EndOf(rest: string, post: string)
    requires IsBlank(post) && (rest != "" ==> !IsBlankChar(rest[|rest| - 1]))
    ensures TrimEnd(rest + post) == rest
    decreases |post|
  {
    if post == "" {
      Units(rest);
      AllWhiteSays(rest);
    } else {
      var n := |post| - 1;
      assert (rest + post)[|rest + post| - 1] == post[n] && (rest + post)[..|rest + post| - 1] == rest + post[..n];
      WhiteSays(post[n]);
      EndOf(rest, post[..n]);
    }
  }

  /** What trimming leaves of blanks alone. */
  lemma {:induction false} OnlyBlanks(s: string)
    requires IsBlank(s)
    ensures TrimStart(s) == "" && TrimEnd(s) == ""
  {
    Units(s);
    FrontOf(s, "");
    EndOf("", s);
  }

  lemma TrimIsSnug(s: string)
    ensures IsSnug(Trim(s))
  {
    AllWhiteSays(Trim(s));
    var t := TrimStart(s);
    AllWhiteSays(t);
    assert Trim(s) != "" ==> Trim(s)[0] == t[0];
  }

  lemma BlankConcat(a: string, b: string)
    requires IsBlank(a) && IsBlank(b)
    ensures IsBlank(a + b)
  {
  }

  lemma TrimSays(line: string, core: string)
    ensures Trim(line) == core <==> IsTrimmed(line, core)
  {
    if Trim(line) == core {
      var pre := FrontForm(line);
      var post := EndForm(TrimStart(line));
      TrimIsSnug(line);
      assert line == pre + (core + post);
    }
    if IsTrimmed(line, core) {
      var pre, post :| IsBlank(pre) && IsBlank(post) && line == pre + (core + post);
      TrimmedOf(pre, core, post);
    }
  }

  lemma TrimmedOf(pre: string, core: string, post: string)
    requires IsBlank(pre) && IsBlank(post) && IsSnug(core)
    ensures Trim(pre + (core + post)) == core
  {
    if core == "" {
      BlankConcat(pre, post);
      Units(post);
      OnlyBlanks(pre + post);
    } else {
      assert (core + post)[0] == core[0];
      FrontOf(pre, core + post);
      EndOf(core, post);
    }
  }

  // ---------------------------------------------------------------------------
  // Comments
  // ---------------------------------------------------------------------------

  lemma NoHashInBlank(s: string)
    requires IsBlank(s)
    ensures '#' !in s
  {
    WhiteSays('#');
  }

  lemma {:induction false} HashOf(a: string, comment: string)
    requires '#' !in a && IsComment(comment)
    ensures BeforeHash(a + comment) == a
  {
    var s := a + comment;
    if comment == "" {
      Units(a);
    } else {
      assert s[|a|] == '#';
      forall i | 0 <= i < |a|
        ensures s[i] != '#'
      {
        assert s[i] == a[i] && a[i] in a;
      }
      CommentGoes(s, |a|);
      assert s[..|a|] == a;
    }
  }

  lemma HashForm(s: string) returns (comment: string)
    ensures IsComment(comment) && s == BeforeHash(s) + comment
  {
    comment := s[|BeforeHash(s)|..];
    assert s == s[..|BeforeHash(s)|] + comment;
  }

  lemma UncommentedOf(pre: string, core: string, post: string, comment: string)
    requires IsBlank(pre) && IsBlank(post) && IsComment(comment) && IsSnug(core) && '#' !in core
    ensures StripInlineComment(pre + (core + (post + comment))) == core
  {
    var s := pre + (core + post);
    NoHashInBlank(pre);
    NoHashInBlank(post);
    assert pre + (core + (post + comment)) == s + comment;
    assert forall c | c in s :: c in pre || c in core || c in post;
    HashOf(s, comment);
    TrimmedOf(pre, core, post);
  }

  /** Taking a line apart. */
  lemma StripForm(line: string) returns (pre: string, post: string, comment: string)
    ensures IsBlank(pre) && IsBlank(post) && IsComment(comment)
    ensures line == pre + (StripInlineComment(line) + (post + comment))
    ensures IsSnug(StripInlineComment(line)) && '#' !in StripInlineComment(line)
  {
    var bare := BeforeHash(line);
    var core := StripInlineComment(line);
    comment := HashForm(line);
    pre := FrontForm(bare);
    post := EndForm(TrimStart(bare));
    TrimIsSnug(bare);
    Regrouped(pre, core, post, comment);
    CoreHasNoHash(bare, pre, core, post);
  }

  lemma Regrouped(a: string, b: string, c: string, d: string)
    ensures (a + (b + c)) + d == a + (b + (c + d))
  {
    Assoc(a, b + c, d);
    Assoc(b, c, d);
  }

  lemma CoreHasNoHash(bare: string, pre: string, core: string, post: string)
    requires '#' !in bare && bare == pre + (core + post)
    ensures '#' !in core
  {
    forall i | 0 <= i < |core|
      ensures core[i] != '#'
    {
      assert bare[|pre| + i] == core[i] && bare[|pre| + i] in bare;
    }
  }

  lemma StripSays(line: string, core: string)
    ensures StripInlineComment(line) == core <==> IsUncommented(line, core)
  {
    if StripInlineComment(line) == core {
      var pre, post, comment := StripForm(line);
    }
    if IsUncommented(line, core) {
      var pre, post, comment :| IsBlank(pre) && IsBlank(post) && IsComment(comment)
                                && line == pre + (core + (post + comment));
      UncommentedOf(pre, core, post, comment);
    }
  }

  /** Stripping the comment of a line or of the line without the blanks before it is the same. */
  lemma StripTrimmed(line: string)
    ensures StripInlineComment(TrimStart(line)) == StripInlineComment(line)
  {
    var t := TrimStart(line);
    var core := StripInlineComment(t);
    var front := FrontForm(line);
    var pre, post, comment := StripForm(t);
    BlankConcat(front, pre);
    Assoc(front, pre, core + (post + comment));
    UncommentedOf(front + pre, core, post, comment);
  }

  /** What an active line says. */
  lemma ActiveSays(line: string, core: string)
    requires core != ""
    ensures ActiveExpression(line) == Some(core) <==> IsUncommented(line, core)
  {
    var t := TrimStart(line);
    StripTrimmed(line);
    StripSays(line, core);
    if StripInlineComment(t) == core {
      StartsBare(t, core);
    }
  }

  lemma StartsBare(t: string, core: string)
    requires StripInlineComment(t) == core && core != ""
    ensures t != "" && t[0] != '#'
  {
    assert t == "" || t[0] == '#' ==> BeforeHash(t) == "";
  }

  lemma HashRest(line: string, rest: string)
    ensures IsBehindHash(line, rest) <==> TrimStart(line) == "#" + rest
  {
    WhiteSays('#');
    if IsBehindHash(line, rest) {
      var pre :| IsBlank(pre) && line == pre + ("#" + rest);
      FrontOf(pre, "#" + rest);
    }
    if TrimStart(line) == "#" + rest {
      var pre := FrontForm(line);
    }
  }

  lemma HashLeads(line: string)
    requires CommentedExpression(line).Some?
    ensures var t := TrimStart(line);
            t != "" && t[0] == '#' && CommentedExpression(line).value == StripInlineComment(TrimStart(t[1..]))
  {
  }

  lemma HeadAndTail(t: string)
    requires t != "" && t[0] == '#'
    ensures t == "#" + t[1..]
  {
  }

  lemma CommentedForm(line: string) returns (rest: string)
    requires CommentedExpression(line).Some?
    ensures IsBehindHash(line, rest) && IsUncommented(rest, CommentedExpression(line).value)
  {
    HashLeads(line);
    HeadAndTail(TrimStart(line));
    rest := TrimStart(line)[1..];
    HashRest(line, rest);
    StripTrimmed(rest);
    StripSays(rest, StripInlineComment(rest));
  }

  lemma CommentedOf(line: string, rest: string, core: string)
    requires IsBehindHash(line, rest) && IsUncommented(rest, core) && core != ""
    ensures CommentedExpression(line) == Some(core)
  {
    HashRest(line, rest);
    assert TrimStart(line)[1..] == rest;
    StripTrimmed(rest);
    StripSays(rest, core);
  }

  // ---------------------------------------------------------------------------
  // Headers, keys and entries
  // ---------------------------------------------------------------------------

  lemma SectionOfSays(core: string, name: string)
    ensures SectionOf(core) == Some(name) <==> IsHeader(core, name)
  {
    if SectionOf(core) == Some(name) {
      assert core == "[" + (core[1..|core| - 1] + "]");
    }
    if IsHeader(core, name) {
      assert core[1..|core| - 1] == name;
    }
  }

  lemma MatchedSets(core: string, key: string)
    requires MatchKey(core) == Some(key)
    ensures SetsKey(core, key)
  {
    var k, blank, n := MatchForm(core);
    var rest := core[n + 1..];
    AllWhiteSays(key);
    AllWhiteSays(blank);
    Halves(core, n + 1);
    Regrouped(key, blank, "=", rest);
  }

  lemma MatchKeySays(core: string, key: string)
    ensures MatchKey(core) == Some(key) <==> SetsKey(core, key)
  {
    if MatchKey(core) == Some(key) {
      MatchedSets(core, key);
    }
    if SetsKey(core, key) {
      var blank, rest :| IsBlank(blank) && core == key + (blank + ("=" + rest));
      AllWhiteSays(key);
      AllWhiteSays(blank);
      MatchOf(key, blank, rest);
    }
  }

  lemma KeyForm(core: string, key: string) returns (blank: string, rest: string)
    requires MatchKey(core) == Some(key)
    ensures IsKeyName(key) && IsBlank(blank) && core == key + (blank + ("=" + rest)) && AfterKey(core)[1..] == rest
  {
    MatchKeySays(core, key);
    blank, rest :| IsBlank(blank) && core == key + (blank + ("=" + rest));
    AllWhiteSays(blank);
    AllWhiteSays(key);
    MatchOf(key, blank, rest);
    assert AfterKey(core) == "=" + rest;
  }

  lemma SnugTrim(s: string)
    requires IsSnug(s)
    ensures Trim(s) == s
  {
    TrimmedOf("", s, "");
    Units(s);
  }

  lemma EndsAlike(core: string, front: string, value: string)
    requires value != "" && core == front + value && IsSnug(core)
    ensures !IsBlankChar(value[|value| - 1])
  {
    assert core[|core| - 1] == value[|value| - 1];
  }

  lemma ValueForm(core: string, e: Entry)
    requires IsSnug(core) && KeyValue(core) == Some(e)
    ensures IsEntry(core, e)
  {
    var blank, rest := KeyForm(core, e.key);
    var gap := FrontForm(rest);
    var value := TrimStart(rest);
    AllWhiteSays(value);
    Regrouped(e.key, blank, "=", gap + value);
    Assoc(e.key + (blank + "="), gap, value);
    EndsAlike(core, e.key + (blank + "=") + gap, value);
    SnugTrim(value);
  }

  lemma ValueOf(core: string, e: Entry)
    requires IsEntry(core, e)
    ensures KeyValue(core) == Some(e)
  {
    var blank, gap :| IsBlank(blank) && IsBlank(gap) && core == e.key + (blank + ("=" + (gap + e.value)));
    AllWhiteSays(blank);
    AllWhiteSays(e.key);
    MatchOf(e.key, blank, gap + e.value);
    assert AfterKey(core)[1..] == gap + e.value;
    FrontOf(gap, e.value);
    SnugTrim(e.value);
    ValueIs(core, e);
  }

  lemma KeyValueSays(core: string, e: Entry)
    requires IsSnug(core)
    ensures KeyValue(core) == Some(e) <==> IsEntry(core, e)
  {
    if KeyValue(core) == Some(e) {
      ValueForm(core, e);
    }
    if IsEntry(core, e) {
      ValueOf(core, e);
    }
  }

  // ---------------------------------------------------------------------------
  // The readings
  // ---------------------------------------------------------------------------

  /** The inspector sees a header exactly on lines that have one, comments aside. */
  lemma ActiveSectionSays(line: string, name: string)
    ensures ActiveSection(line) == Some(name) <==> exists core :: IsUncommented(line, core) && IsHeader(core, name)
  {
    var e := ActiveExpression(line);
    if e.Some? {
      ActiveSays(line, e.value);
      SectionOfSays(e.value, name);
    }
    if core :| IsUncommented(line, core) && IsHeader(core, name) {
      ActiveSays(line, core);
      SectionOfSays(core, name);
    }
  }

  /** An entry, likewise. */
  lemma ActiveEntrySays(line: string, entry: Entry)
    ensures ActiveEntry(line) == Some(entry) <==> exists core :: IsUncommented(line, core) && IsEntry(core, entry)
  {
    var e := ActiveExpression(line);
    if e.Some? {
      ActiveSays(line, e.value);
      KeyValueSays(e.value, entry);
    }
    if core :| IsUncommented(line, core) && IsEntry(core, entry) {
      ActiveSays(line, core);
      KeyValueSays(core, entry);
    }
  }

  /** And on lines that are commented out. */
  lemma CommentedSectionSays(line: string, name: string)
    ensures CommentedSection(line) == Some(name) <==>
            exists rest, core :: IsBehindHash(line, rest) && IsUncommented(rest, core) && IsHeader(core, name)
  {
    var e := CommentedExpression(line);
    if e.Some? {
      var rest := CommentedForm(line);
      SectionOfSays(e.value, name);
    }
    if rest, core :| IsBehindHash(line, rest) && IsUncommented(rest, core) && IsHeader(core, name) {
      CommentedOf(line, rest, core);
      SectionOfSays(core, name);
    }
  }

  lemma CommentedEntrySays(line: string, entry: Entry)
    ensures CommentedEntry(line) == Some(entry) <==>
            exists rest, core :: IsBehindHash(line, rest) && IsUncommented(rest, core) && IsEntry(core, entry)
  {
    var e := CommentedExpression(line);
    if e.Some? {
      var rest := CommentedForm(line);
      KeyValueSays(e.value, entry);
    }
    if rest, core :| IsBehindHash(line, rest) && IsUncommented(rest, core) && IsEntry(core, entry) {
      CommentedOf(line, rest, core);
      KeyValueSays(core, entry);
    }
  }

  /** The rewriter sees a header only where no comment follows it. */
  lemma SectionAtSays(line: string, name: string)
    ensures SectionAt(line) == Some(name) <==> exists core :: IsTrimmed(line, core) && IsHeader(core, name)
  {
    SectionForm(line);
    TrimSays(line, Trim(line));
    SectionOfSays(Trim(line), name);
    if core :| IsTrimmed(line, core) && IsHeader(core, name) {
      TrimSays(line, core);
      SectionOfSays(core, name);
    }
  }

  /** And a key wherever one stands before an equals sign, whatever comes behind. */
  lemma PresentKeySays(line: string, key: string)
    ensures PresentKey(line) == Some(key) <==> exists core :: IsTrimmed(line, core) && SetsKey(core, key)
  {
    PresentForm(line);
    TrimSays(line, Trim(line));
    MatchKeySays(Trim(line), key);
    if core :| IsTrimmed(line, core) && SetsKey(core, key) {
      TrimSays(line, core);
      MatchKeySays(core, key);
    }
  }

  /** A text in quotes of either kind. */
  predicate IsQuoted(core: string, text: string) {
    && (core == ['"'] + (text + ['"']) || core == ['\''] + (text + ['\'']))
    && forall i | 0 <= i < |text| :: !IsLineBreak(text[i])
  }

  /** It is read, comments and blanks aside. */
  lemma TomlSays(raw: string, text: string)
    ensures TomlString(raw) == Some(text) <==> exists core :: IsUncommented(raw, core) && IsQuoted(core, text)
  {
    var core := StripInlineComment(raw);
    StripSays(raw, core);
    EitherQuoted(core, text);
    if other :| IsUncommented(raw, other) && IsQuoted(other, text) {
      StripSays(raw, other);
    }
  }

  lemma EitherQuoted(core: string, text: string)
    ensures (Quoted(core, '"') == Some(text) || (Quoted(core, '"').None? && Quoted(core, '\'') == Some(text))) <==>
            IsQuoted(core, text)
  {
    QuotedSays(core, '"', text);
    QuotedSays(core, '\'', text);
    assert Quoted(core, '"').Some? ==> core[0] == '"';
    assert Quoted(core, '\'').Some? ==> core[0] == '\'';
  }

  lemma QuotedSays(s: string, quote: char, text: string)
    requires quote == '"' || quote == '\''
    ensures Quoted(s, quote) == Some(text) <==>
            s == [quote] + (text + [quote]) && forall i | 0 <= i < |text| :: !IsLineBreak(text[i])
  {
    if Quoted(s, quote) == Some(text) {
      assert s == [quote] + (s[1..|s| - 1] + [quote]);
      assert forall i | 0 <= i < |text| :: text[i] == s[i + 1];
    }
    if s == [quote] + (text + [quote]) && forall i | 0 <= i < |text| :: !IsLineBreak(text[i]) {
      QuotedOf(s, quote, text);
    }
  }

  lemma QuotedOf(s: string, quote: char, text: string)
    requires (quote == '"' || quote == '\'') && s == [quote] + (text + [quote])
    requires forall i | 0 <= i < |text| :: !IsLineBreak(text[i])
    ensures Quoted(s, quote) == Some(text)
  {
    assert |s| == |text| + 2 && s[0] == quote && s[|s| - 1] == quote && s[1..|s| - 1] == text;
    forall i | 0 <= i < |s|
      ensures !IsLineBreak(s[i])
    {
      assert 1 <= i < |s| - 1 ==> s[i] == text[i - 1];
    }
  }
}
