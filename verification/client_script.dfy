/** The two pure decisions of the browser script: `escapeHtml`, which every
    message text passes through before it is put into the page, and the
    length threshold of `handleSearchInput`. */
module ClientScript {
  import opened Text
  import opened Optional

  /** The five characters `escapeHtml` replaces. */
  predicate IsSpecial(c: char) {
    c == '&' || c == '<' || c == '>' || c == '"' || c == '\''
  }

  /** The characters that must never appear raw in escaped output. */
  predicate IsMarkup(c: char) {
    c == '<' || c == '>' || c == '"' || c == '\''
  }

  /** The replacement of one character: its entity if it is special,
      otherwise the character itself. */
  function Entity(c: char): (e: string)
    ensures IsSpecial(c) ==> |e| >= 4 && e[0] == '&' && e[|e| - 1] == ';'
    ensures !IsSpecial(c) ==> e == [c]
    ensures forall i :: 0 <= i < |e| ==> !IsMarkup(e[i])
  {
    match c
    case '&' => "&amp;"
    case '<' => "&lt;"
    case '>' => "&gt;"
    case '"' => "&quot;"
    case '\'' => "&#039;"
    case _ => [c]
  }

  /** `escapeHtml(text)`: the global replace of `/[&<>"']/g`, one character
      at a time from the left. */
  function EscapeHtml(s: string): (r: string)
    ensures |r| >= |s|
    ensures forall i :: 0 <= i < |r| ==> !IsMarkup(r[i])
    ensures (forall i :: 0 <= i < |s| ==> !IsSpecial(s[i])) ==> r == s
  {
    if s == [] then [] else Entity(s[0]) + EscapeHtml(s[1..])
  }

  /** Escaping distributes over concatenation, so every character is
      replaced in place and in order. */
  lemma {:induction false} EscapeConcat(a: string, b: string)
    ensures EscapeHtml(a + b) == EscapeHtml(a) + EscapeHtml(b)
  {
    if a == [] {
      assert a + b == b;
    } else {
      assert (a + b)[1..] == a[1..] + b;
      EscapeConcat(a[1..], b);
    }
  }

  /** The reading of escaped text back into characters, as an HTML parser
      decodes these five entities. */
  function Unescape(t: string): (s: string)
    ensures |s| <= |t|
  {
    if t == [] then []
    else if t[0] != '&' then [t[0]] + Unescape(t[1..])
    else if "&amp;" <= t then "&" + Unescape(t[5..])
    else if "&lt;" <= t then "<" + Unescape(t[4..])
    else if "&gt;" <= t then ">" + Unescape(t[4..])
    else if "&quot;" <= t then "\"" + Unescape(t[6..])
    else if "&#039;" <= t then "'" + Unescape(t[6..])
    else "&" + Unescape(t[1..])
  }

  /** Decoding one replacement gives back its character. */
  lemma UnescapeEntity(c: char, rest: string)
    ensures Unescape(Entity(c) + rest) == [c] + Unescape(rest)
  {
    var e := Entity(c);
    var t := e + rest;
    assert t[..|e|] == e;
    assert t[|e|..] == rest;
    if c == '&' {
      assert "&amp;" <= t;
    } else if c == '<' {
      assert !("&amp;" <= t) by { assert t[1] == 'l'; }
      assert "&lt;" <= t;
    } else if c == '>' {
      assert !("&amp;" <= t) && !("&lt;" <= t) by { assert t[1] == 'g'; }
      assert "&gt;" <= t;
    } else if c == '"' {
      assert !("&amp;" <= t) && !("&lt;" <= t) && !("&gt;" <= t) by { assert t[1] == 'q'; }
      assert "&quot;" <= t;
    } else if c == '\'' {
      assert !("&amp;" <= t) && !("&lt;" <= t) && !("&gt;" <= t) && !("&quot;" <= t)
        by { assert t[1] == '#'; }
      assert "&#039;" <= t;
    } else {
      assert t[0] == c && t[1..] == rest;
    }
  }

  /** Escaping loses nothing: the page shows exactly the text that was sent. */
  lemma {:induction false} UnescapeEscape(s: string)
    ensures Unescape(EscapeHtml(s)) == s
  {
    if s != [] {
      UnescapeEscape(s[1..]);
      UnescapeEntity(s[0], EscapeHtml(s[1..]));
      assert s == [s[0]] + s[1..];
    }
  }

  /** What `handleSearchInput` leaves behind after one keystroke. */
  datatype SearchPanel = SearchPanel(resultsVisible: bool, scheduled: Option<string>)

  /** `handleSearchInput(query)`: the pending search is always cancelled;
      an empty trimmed query also hides and clears the results; a one-character
      query stops there; a longer one schedules a search for the trimmed text. */
  function HandleSearchInput(p: SearchPanel, query: string): (r: SearchPanel)
    ensures r.scheduled.Some? <==> |Trim(JavaScript, query)| >= 2
    ensures r.scheduled.Some? ==> r.scheduled.value == Trim(JavaScript, query)
    ensures r.resultsVisible == (p.resultsVisible && Trim(JavaScript, query) != [])
  {
    var q := Trim(JavaScript, query);
    if |q| == 0 then SearchPanel(false, None)
    else if |q| < 2 then p.(scheduled := None)
    else p.(scheduled := Some(q))
  }

  /** A query of whitespace only hides the results, whatever was shown. */
  lemma BlankQueryHides(p: SearchPanel, query: string)
    requires IsBlank(JavaScript, query)
    ensures HandleSearchInput(p, query) == SearchPanel(false, None)
  {
    BlankIffTrimEmpty(JavaScript, query);
  }
}
