/** Input and data sanitisation (backend/app/security.py): the HTML escaper the
    validators rely on, the length-bounded input validator, the session-id format
    check, the recursive sanitiser for GitHub JSON, and the per-client sliding-window
    rate limiter. */
module Security {
  import opened Common

  // ---------------------------------------------------------------------------
  // html.escape(s, quote=True)
  // ---------------------------------------------------------------------------

  /** `s.replace(c, rep)` for a single character `c`. */
  function Replace(s: string, c: char, rep: string): string
  {
    if s == [] then [] else (if s[0] == c then rep else [s[0]]) + Replace(s[1..], c, rep)
  }

  lemma {:induction false} ReplaceAppend(a: string, b: string, c: char, rep: string)
    ensures Replace(a + b, c, rep) == Replace(a, c, rep) + Replace(b, c, rep)
  {
    if a == [] {
      assert a + b == b;
    } else {
      assert (a + b)[0] == a[0] && (a + b)[1..] == a[1..] + b;
      ReplaceAppend(a[1..], b, c, rep);
    }
  }

  lemma {:induction false} ReplaceAbsent(s: string, c: char, rep: string)
    requires c !in s
    ensures Replace(s, c, rep) == s
  {
    if s != [] {
      assert c !in s[1..];
      ReplaceAbsent(s[1..], c, rep);
    }
  }

  /** html.escape with quote=True: five replacements, ampersand first. */
  function HtmlEscape(s: string): string
  {
    Replace(Replace(Replace(Replace(Replace(s, '&', "&amp;"), '<', "&lt;"), '>', "&gt;"), '"', "&quot;"), '\'', "&#x27;")
  }

  /** What one character becomes under html.escape. */
  function EscapeChar(c: char): string
  {
    if c == '&' then "&amp;"
    else if c == '<' then "&lt;"
    else if c == '>' then "&gt;"
    else if c == '"' then "&quot;"
    else if c == '\'' then "&#x27;"
    else [c]
  }

  /** Characters that may open markup or break out of an attribute value. */
  predicate Markup(c: char)
  {
    c == '<' || c == '>' || c == '"' || c == '\''
  }

  /** Character-by-character form of the escaper. */
  function EscapeEach(s: string): (r: string)
    ensures |r| >= |s|
    ensures forall i :: 0 <= i < |r| ==> !Markup(r[i])
  {
    if s == [] then [] else EscapeChar(s[0]) + EscapeEach(s[1..])
  }

  lemma ReplaceOne(c: char, d: char, rep: string)
    ensures Replace([c], d, rep) == if c == d then rep else [c]
  {
    assert [c][1..] == [];
    assert Replace([c], d, rep) == (if c == d then rep else [c]) + Replace([], d, rep);
  }

  lemma HtmlEscapeAmp()
    ensures HtmlEscape("&") == "&amp;"
  {
    var s1 := Replace("&", '&', "&amp;");
    assert s1 == "&amp;" by { ReplaceOne('&', '&', "&amp;"); }
    var s2 := Replace(s1, '<', "&lt;");
    assert s2 == "&amp;";
    var s3 := Replace(s2, '>', "&gt;");
    assert s3 == "&amp;";
    var s4 := Replace(s3, '"', "&quot;");
    assert s4 == "&amp;";
    var s5 := Replace(s4, '\'', "&#x27;");
    assert s5 == "&amp;";
  }

  lemma HtmlEscapeLt()
    ensures HtmlEscape("<") == "&lt;"
  {
    var s1 := Replace("<", '&', "&amp;");
    assert s1 == "<" by { ReplaceOne('<', '&', "&amp;"); }
    var s2 := Replace(s1, '<', "&lt;");
    assert s2 == "&lt;" by { ReplaceOne('<', '<', "&lt;"); }
    var s3 := Replace(s2, '>', "&gt;");
    assert s3 == "&lt;";
    var s4 := Replace(s3, '"', "&quot;");
    assert s4 == "&lt;";
    var s5 := Replace(s4, '\'', "&#x27;");
    assert s5 == "&lt;";
  }

  lemma HtmlEscapeGt()
    ensures HtmlEscape(">") == "&gt;"
  {
    var s1 := Replace(">", '&', "&amp;");
    assert s1 == ">" by { ReplaceOne('>', '&', "&amp;"); }
    var s2 := Replace(s1, '<', "&lt;");
    assert s2 == ">" by { ReplaceOne('>', '<', "&lt;"); }
    var s3 := Replace(s2, '>', "&gt;");
    assert s3 == "&gt;" by { ReplaceOne('>', '>', "&gt;"); }
    var s4 := Replace(s3, '"', "&quot;");
    assert s4 == "&gt;";
    var s5 := Replace(s4, '\'', "&#x27;");
    assert s5 == "&gt;";
  }

  lemma HtmlEscapeQuot()
    ensures HtmlEscape("\"") == "&quot;"
  {
    var s1 := Replace("\"", '&', "&amp;");
    assert s1 == "\"" by { ReplaceOne('"', '&', "&amp;"); }
    var s2 := Replace(s1, '<', "&lt;");
    assert s2 == "\"" by { ReplaceOne('"', '<', "&lt;"); }
    var s3 := Replace(s2, '>', "&gt;");
    assert s3 == "\"" by { ReplaceOne('"', '>', "&gt;"); }
    var s4 := Replace(s3, '"', "&quot;");
    assert s4 == "&quot;" by { ReplaceOne('"', '"', "&quot;"); }
    var s5 := Replace(s4, '\'', "&#x27;");
    assert s5 == "&quot;";
  }

  lemma HtmlEscapeApos()
    ensures HtmlEscape("'") == "&#x27;"
  {
    var s1 := Replace("'", '&', "&amp;");
    assert s1 == "'" by { ReplaceOne('\'', '&', "&amp;"); }
    var s2 := Replace(s1, '<', "&lt;");
    assert s2 == "'" by { ReplaceOne('\'', '<', "&lt;"); }
    var s3 := Replace(s2, '>', "&gt;");
    assert s3 == "'" by { ReplaceOne('\'', '>', "&gt;"); }
    var s4 := Replace(s3, '"', "&quot;");
    assert s4 == "'" by { ReplaceOne('\'', '"', "&quot;"); }
    var s5 := Replace(s4, '\'', "&#x27;");
    assert s5 == "&#x27;" by { ReplaceOne('\'', '\'', "&#x27;"); }
  }

  lemma HtmlEscapePlain(c: char)
    requires c != '&' && !Markup(c)
    ensures HtmlEscape([c]) == [c]
  {
    ReplaceOne(c, '&', "&amp;");
    ReplaceOne(c, '<', "&lt;");
    ReplaceOne(c, '>', "&gt;");
    ReplaceOne(c, '"', "&quot;");
    ReplaceOne(c, '\'', "&#x27;");
  }

  lemma HtmlEscapeChar(c: char)
    ensures HtmlEscape([c]) == EscapeChar(c)
  {
    if c == '&' {
      HtmlEscapeAmp();
    } else if c == '<' {
      HtmlEscapeLt();
    } else if c == '>' {
      HtmlEscapeGt();
    } else if c == '"' {
      HtmlEscapeQuot();
    } else if c == '\'' {
      HtmlEscapeApos();
    } else {
      HtmlEscapePlain(c);
    }
  }

  lemma HtmlEscapeAppend(a: string, b: string)
    ensures HtmlEscape(a + b) == HtmlEscape(a) + HtmlEscape(b)
  {
    var s1a, s1b := Replace(a, '&', "&amp;"), Replace(b, '&', "&amp;");
    ReplaceAppend(a, b, '&', "&amp;");
    var s2a, s2b := Replace(s1a, '<', "&lt;"), Replace(s1b, '<', "&lt;");
    ReplaceAppend(s1a, s1b, '<', "&lt;");
    var s3a, s3b := Replace(s2a, '>', "&gt;"), Replace(s2b, '>', "&gt;");
    ReplaceAppend(s2a, s2b, '>', "&gt;");
    var s4a, s4b := Replace(s3a, '"', "&quot;"), Replace(s3b, '"', "&quot;");
    ReplaceAppend(s3a, s3b, '"', "&quot;");
    ReplaceAppend(s4a, s4b, '\'', "&#x27;");
  }

  /** The library's chain of replacements escapes each character independently. */
  lemma {:induction false} HtmlEscapeIsCharwise(s: string)
    ensures HtmlEscape(s) == EscapeEach(s)
  {
    if s == [] {
      assert HtmlEscape(s) == [];
    } else {
      assert s == [s[0]] + s[1..];
      HtmlEscapeAppend([s[0]], s[1..]);
      HtmlEscapeChar(s[0]);
      HtmlEscapeIsCharwise(s[1..]);
    }
  }

  /** Escaped text contains no raw '<', '>', '"' or "'" and is at least as long as the input. */
  lemma EscapedHasNoMarkup(s: string)
    ensures |HtmlEscape(s)| >= |s|
    ensures forall i :: 0 <= i < |HtmlEscape(s)| ==> !Markup(HtmlEscape(s)[i])
  {
    HtmlEscapeIsCharwise(s);
  }

  /** Decoder for exactly the five entities the escaper produces. */
  function Unescape(s: string): string
  {
    if s == [] then []
    else if s[0] != '&' then [s[0]] + Unescape(s[1..])
    else if |s| >= 5 && s[..5] == "&amp;" then "&" + Unescape(s[5..])
    else if |s| >= 4 && s[..4] == "&lt;" then "<" + Unescape(s[4..])
    else if |s| >= 4 && s[..4] == "&gt;" then ">" + Unescape(s[4..])
    else if |s| >= 6 && s[..6] == "&quot;" then "\"" + Unescape(s[6..])
    else if |s| >= 6 && s[..6] == "&#x27;" then "'" + Unescape(s[6..])
    else [s[0]] + Unescape(s[1..])
  }

  lemma UnescapeChar(c: char, rest: string)
    ensures Unescape(EscapeChar(c) + rest) == [c] + Unescape(rest)
  {
    var e := EscapeChar(c) + rest;
    if c == '&' {
      assert e[..5] == "&amp;" && e[5..] == rest;
    } else if c == '<' {
      assert e[1] == 'l' && e[..4] == "&lt;" && e[4..] == rest;
      assert !(|e| >= 5 && e[..5] == "&amp;") by { if |e| >= 5 { assert e[..5][1] == 'l'; } }
    } else if c == '>' {
      assert e[1] == 'g' && e[..4] == "&gt;" && e[4..] == rest;
      assert !(|e| >= 5 && e[..5] == "&amp;") by { if |e| >= 5 { assert e[..5][1] == 'g'; } }
      assert e[..4] != "&lt;" by { assert e[..4][1] == 'g'; }
    } else if c == '"' {
      assert e[1] == 'q' && e[..6] == "&quot;" && e[6..] == rest;
      assert e[..5] != "&amp;" by { assert e[..5][1] == 'q'; }
      assert e[..4] != "&lt;" && e[..4] != "&gt;" by { assert e[..4][1] == 'q'; }
    } else if c == '\'' {
      assert e[1] == '#' && e[..6] == "&#x27;" && e[6..] == rest;
      assert e[..5] != "&amp;" by { assert e[..5][1] == '#'; }
      assert e[..4] != "&lt;" && e[..4] != "&gt;" by { assert e[..4][1] == '#'; }
      assert e[..6] != "&quot;" by { assert e[..6][1] == '#'; }
    } else {
      assert e[0] == c && e[1..] == rest;
    }
  }

  /** Escaping loses nothing: decoding the five entities gives the input back. */
  lemma {:induction false} UnescapeEscape(s: string)
    ensures Unescape(HtmlEscape(s)) == s
  {
    HtmlEscapeIsCharwise(s);
    UnescapeEachRoundTrip(s);
  }

  lemma {:induction false} UnescapeEachRoundTrip(s: string)
    ensures Unescape(EscapeEach(s)) == s
  {
    if s == [] {
    } else {
      UnescapeChar(s[0], EscapeEach(s[1..]));
      UnescapeEachRoundTrip(s[1..]);
      assert s == [s[0]] + s[1..];
    }
  }

  // ---------------------------------------------------------------------------
  // validate_input
  // ---------------------------------------------------------------------------

  datatype RejectReason = InputTooLong(maxLength: int) | MaliciousContent

  /** An HTTPException raised by a validator. */
  datatype Rejection = Rejection(status: int, reason: RejectReason)

  const BadRequest: int := 400

  /** The letter a character stands for under `re.IGNORECASE` on a str pattern, for a
      pattern made of ASCII lower-case letters: an upper-case ASCII letter, and the four
      non-ASCII characters the regular-expression engine treats as the same letter
      (capital I with dot above and dotless i as `i`, long s as `s`, the Kelvin sign
      as `k`). Every other character stands for itself. */
  function FoldCase(c: char): char
  {
    if 'A' <= c <= 'Z' then (c as int + 32) as char
    else if c == '\U{0130}' || c == '\U{0131}' then 'i'
    else if c == '\U{017F}' then 's'
    else if c == '\U{212A}' then 'k'
    else c
  }

  /** `s` starts with the lower-case pattern `pat`, ignoring ASCII case. */
  predicate StartsWithIgnoringCase(s: string, pat: string)
  {
    |s| >= |pat| && forall i :: 0 <= i < |pat| ==> FoldCase(s[i]) == pat[i]
  }

  /** `re.search(pat, s, re.IGNORECASE)` for a literal lower-case pattern. */
  predicate ContainsIgnoringCase(s: string, pat: string)
  {
    StartsWithIgnoringCase(s, pat) || (s != [] && ContainsIgnoringCase(s[1..], pat))
  }

  lemma {:induction false} ContainsIgnoringCaseAt(s: string, pat: string, k: nat)
    requires k <= |s| && StartsWithIgnoringCase(s[k..], pat)
    ensures ContainsIgnoringCase(s, pat)
  {
    if k > 0 {
      assert s[1..][k - 1..] == s[k..];
      ContainsIgnoringCaseAt(s[1..], pat, k - 1);
    } else {
      assert s[k..] == s;
    }
  }

  const JavascriptScheme: string := "javascript:"

  /** The scheme is caught whatever the case of its letters, and with the look-alike
      letters the case-insensitive match accepts. */
  lemma SchemeVariantsRejected(otherPattern: string -> bool)
    ensures ValidateInput("JavaScript:", 1000, false, otherPattern) == Err(Rejection(BadRequest, MaliciousContent))
    ensures ValidateInput("java\U{017F}cript:", 1000, false, otherPattern) == Err(Rejection(BadRequest, MaliciousContent))
    ensures ValidateInput("JAVASCR\U{0130}PT:x", 1000, false, otherPattern) == Err(Rejection(BadRequest, MaliciousContent))
    ensures ValidateInput("javascr\U{0131}pt:", 1000, false, otherPattern) == Err(Rejection(BadRequest, MaliciousContent))
  {
    assert StartsWithIgnoringCase("JavaScript:", JavascriptScheme);
    assert StartsWithIgnoringCase("java\U{017F}cript:", JavascriptScheme);
    assert StartsWithIgnoringCase("JAVASCR\U{0130}PT:x", JavascriptScheme);
    assert StartsWithIgnoringCase("javascr\U{0131}pt:", JavascriptScheme);
  }

  /** validate_input. `otherPattern` stands for the five regular expressions of the
      pattern list other than the literal `javascript:` (script, iframe, object and
      embed blocks, and on-event attributes). */
  function ValidateInput(data: string, maxLength: int, allowHtml: bool, otherPattern: string -> bool): (r: Result<string, Rejection>)
    ensures data == [] ==> r == Ok(data)
    ensures data != [] && |data| > maxLength ==> r == Err(Rejection(BadRequest, InputTooLong(maxLength)))
    ensures data != [] && |data| <= maxLength && ContainsIgnoringCase(data, JavascriptScheme) ==>
              r == Err(Rejection(BadRequest, MaliciousContent))
    ensures r.Ok? <==> data == [] || (|data| <= maxLength && !ContainsIgnoringCase(data, JavascriptScheme) && !otherPattern(data))
    ensures r.Err? ==> r.error.status == BadRequest
    ensures r.Ok? && allowHtml ==> r.value == data
    ensures r.Ok? && !allowHtml ==> Unescape(r.value) == data && forall i :: 0 <= i < |r.value| ==> !Markup(r.value[i])
  {
    if data == [] then Ok(data)
    else if |data| > maxLength then Err(Rejection(BadRequest, InputTooLong(maxLength)))
    else if ContainsIgnoringCase(data, JavascriptScheme) || otherPattern(data) then Err(Rejection(BadRequest, MaliciousContent))
    else if !allowHtml then
      EscapedHasNoMarkup(data);
      UnescapeEscape(data);
      Ok(HtmlEscape(data))
    else Ok(data)
  }

  // ---------------------------------------------------------------------------
  // validate_session_id
  // ---------------------------------------------------------------------------

  /** The character class `[a-zA-Z0-9_-]`. */
  predicate SessionIdChar(c: char)
  {
    'a' <= c <= 'z' || 'A' <= c <= 'Z' || '0' <= c <= '9' || c == '_' || c == '-'
  }

  /** Length of the longest prefix of `s` made of session-id characters: how far the
      greedy `[a-zA-Z0-9_-]{32,}` runs. */
  function IdRun(s: string): (n: nat)
    ensures n <= |s|
    ensures forall i :: 0 <= i < n ==> SessionIdChar(s[i])
    ensures n < |s| ==> !SessionIdChar(s[n])
  {
    if s == [] || !SessionIdChar(s[0]) then 0 else 1 + IdRun(s[1..])
  }

  /** validate_session_id as written: `re.match(r'^[a-zA-Z0-9_-]{32,}$', id)`. Python's
      `$` also matches just before a newline that ends the string. */
  function ValidateSessionId(id: string): (ok: bool)
    ensures ok <==>
      (|id| >= 32 && forall i :: 0 <= i < |id| ==> SessionIdChar(id[i])) ||
      (|id| >= 33 && id[|id| - 1] == '\n' && forall i :: 0 <= i < |id| - 1 ==> SessionIdChar(id[i]))
  {
    if id == [] then false
    else
      var n := IdRun(id);
      n >= 32 && (n == |id| || (n == |id| - 1 && id[n] == '\n'))
  }

  /** The check as evidently intended: at least 32 characters, all from the class. */
  function ValidSessionIdIntended(id: string): (ok: bool)
    ensures ok <==> |id| >= 32 && forall i :: 0 <= i < |id| ==> SessionIdChar(id[i])
  {
    IdRun(id) >= 32 && IdRun(id) == |id|
  }

  /** A 32-character id followed by a newline passes the check as written but is not a
      well-formed session id. */
  lemma TrailingNewlineAccepted()
    ensures var id := seq(32, _ => 'a') + "\n";
            ValidateSessionId(id) && !ValidSessionIdIntended(id)
  {
    var id := seq(32, _ => 'a') + "\n";
    assert id[32] == '\n' && !SessionIdChar(id[32]);
  }

  /** The two checks agree on every id that does not end in a newline. */
  lemma SessionIdChecksAgree(id: string)
    requires id == [] || id[|id| - 1] != '\n'
    ensures ValidateSessionId(id) == ValidSessionIdIntended(id)
  {
  }

  // ---------------------------------------------------------------------------
  // validate_github_data
  // ---------------------------------------------------------------------------

  /** A decoded JSON value; dictionaries keep their entries in insertion order. */
  datatype Value =
    | Null
    | Bool(b: bool)
    | Int(i: int)
    | Float(f: real)
    | Str(s: string)
    | List(items: seq<Value>)
    | Dict(entries: seq<Entry>)

  datatype Entry = Entry(key: string, val: Value)

  const MaxStringLength: nat := 1000
  const MaxListLength: nat := 100

  /** `html.escape(s[:1000])`. */
  function SanitizeString(s: string): (r: string)
    ensures Unescape(r) == Take(s, MaxStringLength)
    ensures |r| <= 6 * MaxStringLength
    ensures forall i :: 0 <= i < |r| ==> !Markup(r[i])
  {
    var t := Take(s, MaxStringLength);
    HtmlEscapeIsCharwise(t);
    EscapeEachLength(t);
    UnescapeEscape(t);
    HtmlEscape(t)
  }

  lemma {:induction false} EscapeEachLength(s: string)
    ensures |EscapeEach(s)| <= 6 * |s|
  {
    if s != [] {
      EscapeEachLength(s[1..]);
    }
  }

  /** str(None) is "None". */
  const NoneText: string := "None"

  /** The dictionary validate_github_data builds: anything but a dictionary becomes {};
      a dictionary keeps its keys, in order, each value sanitised by its type. */
  function Sanitized(data: Value): (r: Value)
    ensures r.Dict?
    decreases data, 0
  {
    match data
    case Dict(es) =>
      Dict(seq(|es|, i requires 0 <= i < |es| => Entry(es[i].key, SanitizedField(es[i].val))))
    case _ => Dict([])
  }

  /** The value stored under a key: strings are cut and escaped, numbers and booleans
      kept, dictionaries sanitised, lists cut to 100 elements with each element
      sanitised, and anything else (null) rendered with str() and escaped. */
  function SanitizedField(v: Value): Value
    decreases v, 1
  {
    match v
    case Str(s) => Str(SanitizeString(s))
    case Int(_) => v
    case Float(_) => v
    case Bool(_) => v
    case Dict(_) => Sanitized(v)
    case List(items) =>
      var n := Min(|items|, MaxListLength);
      List(seq(n, i requires 0 <= i < n => SanitizedItem(items[i])))
    case Null => Str(SanitizeString(NoneText))
  }

  /** An element of a list held in the dictionary: dictionaries are sanitised, strings
      cut and escaped, everything else kept as it is. */
  function SanitizedItem(v: Value): Value
    decreases v, 1
  {
    match v
    case Dict(_) => Sanitized(v)
    case Str(s) => Str(SanitizeString(s))
    case _ => v
  }

  /** validate_github_data: the loop over the dictionary's entries. */
  method ValidateGithubData(data: Value) returns (r: Value)
    ensures r == Sanitized(data)
    decreases data, 0
  {
    if !data.Dict? {
      return Dict([]);
    }
    var es := data.entries;
    ghost var target := Sanitized(data).entries;
    var validated: seq<Entry> := [];
    var k := 0;
    while k < |es|
      invariant 0 <= k <= |es| == |target|
      invariant validated == target[..k]
    {
      var w := SanitizeField(es[k].val);
      assert target[k] == Entry(es[k].key, w);
      validated := validated + [Entry(es[k].key, w)];
      assert validated == target[..k + 1];
      k := k + 1;
    }
    assert validated == target;
    r := Dict(validated);
  }

  /** The branch on the type of one value of the dictionary. */
  method SanitizeField(v: Value) returns (w: Value)
    ensures w == SanitizedField(v)
    decreases v, 1
  {
    if v.Str? {
      w := Str(SanitizeString(v.s));
    } else if v.Int? || v.Float? || v.Bool? {
      w := v;
    } else if v.Dict? {
      w := ValidateGithubData(v);
    } else if v.List? {
      var n := Min(|v.items|, MaxListLength);
      var out: seq<Value> := [];
      var j := 0;
      while j < n
        invariant 0 <= j <= n
        invariant |out| == j
        invariant forall i :: 0 <= i < j ==> out[i] == SanitizedItem(v.items[i])
      {
        var x := SanitizeItem(v.items[j]);
        out := out + [x];
        j := j + 1;
      }
      w := List(out);
    } else {
      w := Str(SanitizeString(NoneText));
    }
  }

  /** The branch on the type of one element of a list held in the dictionary. */
  method SanitizeItem(item: Value) returns (x: Value)
    ensures x == SanitizedItem(item)
    decreases item, 1
  {
    if item.Dict? {
      x := ValidateGithubData(item);
    } else if item.Str? {
      x := Str(SanitizeString(item.s));
    } else {
      x := item;
    }
  }

  function KeysOfEntries(es: seq<Entry>): (ks: seq<string>)
    ensures |ks| == |es| && forall i :: 0 <= i < |es| ==> ks[i] == es[i].key
  {
    seq(|es|, i requires 0 <= i < |es| => es[i].key)
  }

  predicate CleanText(s: string)
  {
    |s| <= 6 * MaxStringLength && forall i :: 0 <= i < |s| ==> !Markup(s[i])
  }

  /** What a sanitised dictionary guarantees: every string reachable through dictionaries
      and through lists held in dictionaries is bounded and escaped, every such list has
      at most 100 elements. Elements of nested lists are not inspected by the sanitiser. */
  predicate CleanDict(v: Value)
    decreases v, 0
  {
    v.Dict? && forall i :: 0 <= i < |v.entries| ==> CleanField(v.entries[i].val)
  }

  predicate CleanField(v: Value)
    decreases v, 1
  {
    match v
    case Str(s) => CleanText(s)
    case Dict(_) => CleanDict(v)
    case List(items) =>
      |items| <= MaxListLength &&
      forall i :: 0 <= i < |items| ==>
        (items[i].Dict? ==> CleanDict(items[i])) && (items[i].Str? ==> CleanText(items[i].s))
    case Null => false
    case _ => true
  }

  /** A non-dictionary becomes {}; a dictionary keeps exactly its keys, in order. */
  lemma SanitizedKeepsKeys(data: Value)
    ensures !data.Dict? ==> Sanitized(data) == Dict([])
    ensures data.Dict? ==> KeysOfEntries(Sanitized(data).entries) == KeysOfEntries(data.entries)
  {
  }

  /** Every output of the sanitiser is clean, whatever the input. */
  lemma {:induction false} SanitizedIsClean(data: Value)
    ensures CleanDict(Sanitized(data))
    decreases data, 0
  {
    match data
    case Dict(es) =>
      var r := Sanitized(data);
      forall i | 0 <= i < |es|
        ensures CleanField(r.entries[i].val)
      {
        SanitizedFieldIsClean(es[i].val);
      }
    case _ =>
  }

  lemma {:induction false} SanitizedFieldIsClean(v: Value)
    ensures CleanField(SanitizedField(v))
    decreases v, 1
  {
    match v
    case Str(s) =>
    case Dict(_) => SanitizedIsClean(v);
    case List(items) =>
      var r := SanitizedField(v);
      forall i | 0 <= i < |r.items|
        ensures (r.items[i].Dict? ==> CleanDict(r.items[i])) && (r.items[i].Str? ==> CleanText(r.items[i].s))
      {
        assert r.items[i] == SanitizedItem(items[i]);
        if items[i].Dict? {
          SanitizedIsClean(items[i]);
        }
      }
    case Null =>
    case _ =>
  }

  // ---------------------------------------------------------------------------
  // RateLimiter
  // ---------------------------------------------------------------------------

  const RateLimitMaxRequests: nat := 100
  const RateLimitWindowSeconds: real := 60.0

  /** The timestamps still inside the window at time `now`, in their original order. */
  function InWindow(times: seq<real>, now: real): (r: seq<real>)
    ensures |r| <= |times|
    ensures forall t :: t in r <==> t in times && now - t < RateLimitWindowSeconds
  {
    if times == [] then []
    else (if now - times[0] < RateLimitWindowSeconds then [times[0]] else []) + InWindow(times[1..], now)
  }

  /** Pruning at a later time subsumes pruning at an earlier one. */
  lemma {:induction false} InWindowLater(times: seq<real>, earlier: real, later: real)
    requires earlier <= later
    ensures InWindow(InWindow(times, earlier), later) == InWindow(times, later)
  {
    if times != [] {
      InWindowLater(times[1..], earlier, later);
      var f := InWindow(times, earlier);
      if earlier - times[0] < RateLimitWindowSeconds {
        assert f[0] == times[0] && f[1..] == InWindow(times[1..], earlier);
      } else {
        assert f == InWindow(times[1..], earlier);
      }
    }
  }

  class RateLimiter {
    /** Per-client request timestamps (`self.requests`). */
    var requests: map<string, seq<real>>

    ghost predicate Valid()
      reads this
    {
      forall c :: c in requests ==> |requests[c]| <= RateLimitMaxRequests
    }

    constructor ()
      ensures Valid() && requests == map[]
    {
      requests := map[];
    }

    /** is_allowed: prune the client's timestamps to the last 60 seconds, refuse when 100
        or more remain, otherwise record `now`. */
    method IsAllowed(clientIp: string, now: real) returns (allowed: bool)
      requires Valid()
      modifies this
      ensures Valid()
      ensures var kept := InWindow(if clientIp in old(requests) then old(requests)[clientIp] else [], now);
              allowed == (|kept| < RateLimitMaxRequests) &&
              requests == old(requests)[clientIp := if allowed then kept + [now] else kept]
      ensures forall c :: c != clientIp ==> (c in requests <==> c in old(requests))
      ensures forall c :: c != clientIp && c in requests ==> requests[c] == old(requests)[c]
    {
      if clientIp in requests {
        requests := requests[clientIp := InWindow(requests[clientIp], now)];
      } else {
        requests := requests[clientIp := []];
      }
      if |requests[clientIp]| >= RateLimitMaxRequests {
        return false;
      }
      requests := requests[clientIp := requests[clientIp] + [now]];
      return true;
    }
  }
}
