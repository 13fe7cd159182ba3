/** The two pure string helpers of the web app: `removeEscapedQuotes`, applied
    to the `details` column of every event read back from SQLite, and
    `formatLink`, which turns a navigation caption into a route path. Both are
    chains of JavaScript regular-expression replaces; each replace is one
    function here. */
module Text {
  import opened Wrappers

  // ---------------------------------------------------------------------
  // removeEscapedQuotes: every backslash-quote becomes a quote, then one
  // outer pair of quotes around a single line is removed.
  // ---------------------------------------------------------------------

  /** A JavaScript line terminator: what `.` in a regular expression does not match. */
  predicate IsLineTerminator(c: char)
  {
    c == '\n' || c == '\r' || c == '\U{2028}' || c == '\U{2029}'
  }

  /** The first replace: every backslash immediately followed by a double quote
      becomes a bare double quote, scanning left to right, with no rescan of
      what was produced. */
  function UnescapeQuotes(s: seq<char>): (r: seq<char>)
    ensures |r| <= |s|
  {
    if |s| >= 2 && s[0] == '\\' && s[1] == '"' then
      assert s == [s[0], s[1]] + s[2..];
      ['"'] + UnescapeQuotes(s[2..])
    else if s == [] then []
    else
      assert s == [s[0]] + s[1..];
      [s[0]] + UnescapeQuotes(s[1..])
  }

  /** The second replace: the anchored pattern `^"(.*)"$` matches only when the
      whole string is a quote, a run of non-line-terminators, and a quote. */
  predicate WrappedInQuotes(t: seq<char>)
  {
    |t| >= 2 && t[0] == '"' && t[|t| - 1] == '"' &&
    forall i :: 1 <= i < |t| - 1 ==> !IsLineTerminator(t[i])
  }

  /** Strips one quote from each end of a wrapped string; any other string
      is kept whole. */
  function StripOuterQuotes(t: seq<char>): (r: seq<char>)
    ensures WrappedInQuotes(t) ==> ['"'] + r + ['"'] == t
    ensures !WrappedInQuotes(t) ==> r == t
    ensures |r| <= |t|
  {
    if WrappedInQuotes(t) then t[1..|t| - 1] else t
  }

  function RemoveEscapedQuotes(s: seq<char>): (r: seq<char>)
    ensures |r| <= |s|
  {
    StripOuterQuotes(UnescapeQuotes(s))
  }

  /** `s` contains no backslash-quote pair. */
  predicate NoEscapedQuote(s: seq<char>)
  {
    forall i :: 0 <= i < |s| - 1 ==> !(s[i] == '\\' && s[i + 1] == '"')
  }

  lemma {:induction false} UnescapeIdentity(s: seq<char>)
    requires NoEscapedQuote(s)
    ensures UnescapeQuotes(s) == s
  {
    if s != [] {
      assert NoEscapedQuote(s[1..]) by {
        forall i | 0 <= i < |s[1..]| - 1
          ensures !(s[1..][i] == '\\' && s[1..][i + 1] == '"')
        {
          assert s[1..][i] == s[i + 1] && s[1..][i + 1] == s[i + 2];
        }
      }
      UnescapeIdentity(s[1..]);
    }
  }

  /** A string with no escaped quote that is not wrapped in quotes comes back unchanged. */
  lemma PlainStringUnchanged(s: seq<char>)
    requires NoEscapedQuote(s) && !WrappedInQuotes(s)
    ensures RemoveEscapedQuotes(s) == s
  {
    UnescapeIdentity(s);
  }

  /** Only one outer pair of quotes is removed: a wrapped string loses exactly
      its first and last characters, whatever they enclose. */
  lemma OneOuterPairStripped(x: seq<char>)
    requires NoEscapedQuote(x) && x != [] && x[|x| - 1] != '\\'
    requires forall i :: 0 <= i < |x| ==> !IsLineTerminator(x[i])
    ensures RemoveEscapedQuotes(['"'] + x + ['"']) == x
  {
    var w := ['"'] + x + ['"'];
    assert NoEscapedQuote(w) by {
      forall i | 0 <= i < |w| - 1 ensures !(w[i] == '\\' && w[i + 1] == '"') {
        if i == |w| - 2 {
          assert w[i] == x[|x| - 1];
        } else if 0 < i {
          assert w[i] == x[i - 1] && w[i + 1] == x[i];
        }
      }
    }
    UnescapeIdentity(w);
    assert WrappedInQuotes(w) by {
      forall i | 1 <= i < |w| - 1 ensures !IsLineTerminator(w[i]) {
        assert w[i] == x[i - 1];
      }
    }
    assert w[1..|w| - 1] == x;
  }

  lemma QuotedAbc()
    ensures RemoveEscapedQuotes("\"abc\"") == "abc"
  {
    var x := "abc";
    assert forall i :: 0 <= i < |x| ==> x[i] != '\\' && !IsLineTerminator(x[i]);
    OneOuterPairStripped(x);
    assert ['"'] + x + ['"'] == "\"abc\"";
  }

  /** `""abc""` loses one pair of quotes, not two. */
  lemma DoublyQuotedAbc()
    ensures RemoveEscapedQuotes("\"\"abc\"\"") == "\"abc\""
  {
    var x := "\"abc\"";
    assert forall i :: 0 <= i < |x| ==> x[i] != '\\' && !IsLineTerminator(x[i]);
    OneOuterPairStripped(x);
    assert ['"'] + x + ['"'] == "\"\"abc\"\"";
  }

  /** The escaping that `UnescapeQuotes` undoes: a backslash before every quote. */
  function EscapeQuotes(t: seq<char>): (r: seq<char>)
    ensures |r| >= |t|
  {
    if t == [] then []
    else
      assert t == [t[0]] + t[1..];
      (if t[0] == '"' then ['\\', '"'] else [t[0]]) + EscapeQuotes(t[1..])
  }

  /** Unescaping undoes escaping, for every string. */
  lemma {:induction false} UnescapeEscape(t: seq<char>)
    ensures UnescapeQuotes(EscapeQuotes(t)) == t
  {
    if t != [] {
      UnescapeEscape(t[1..]);
      var rest := EscapeQuotes(t[1..]);
      if t[0] == '"' {
        assert EscapeQuotes(t) == ['\\', '"'] + rest;
        assert (['\\', '"'] + rest)[2..] == rest;
      } else if t[0] == '\\' {
        assert EscapeQuotes(t) == ['\\'] + rest;
        // the original backslash is followed either by nothing, by a
        // non-quote, or by the backslash that escaping put before a quote
        assert rest == [] || rest[0] != '"' by {
          if t[1..] != [] {
            assert rest[0] == (if t[1] == '"' then '\\' else t[1]);
          }
        }
        assert (['\\'] + rest)[1..] == rest;
      } else {
        assert EscapeQuotes(t) == [t[0]] + rest;
        assert ([t[0]] + rest)[1..] == rest;
      }
    }
  }

  // ---------------------------------------------------------------------
  // formatLink: keep only ASCII letters, digits and spaces, turn each run of
  // whitespace into one dash, lower-case the result and put a slash in front.
  // ---------------------------------------------------------------------

  predicate IsAsciiLetterOrDigit(c: char)
  {
    ('a' <= c <= 'z') || ('A' <= c <= 'Z') || ('0' <= c <= '9')
  }

  /** The characters the first replace keeps: `[a-zA-Z0-9 ]`. */
  predicate Kept(c: char)
  {
    IsAsciiLetterOrDigit(c) || c == ' '
  }

  /** The characters JavaScript's `\s` matches. */
  predicate IsWhitespace(c: char)
  {
    c == ' ' || c == '\t' || c == '\n' || c == '\U{000B}' || c == '\U{000C}' || c == '\r' ||
    c == '\U{00A0}' || c == '\U{1680}' || ('\U{2000}' <= c <= '\U{200A}') ||
    c == '\U{2028}' || c == '\U{2029}' || c == '\U{202F}' || c == '\U{205F}' ||
    c == '\U{3000}' || c == '\U{FEFF}'
  }

  function StripDisallowed(s: seq<char>): (r: seq<char>)
    ensures forall i :: 0 <= i < |r| ==> Kept(r[i])
  {
    Filter(s, Kept)
  }

  /** The whitespace prefix of `s` is dropped. */
  function DropWhitespace(s: seq<char>): (r: seq<char>)
    ensures |r| <= |s|
    ensures r == [] || !IsWhitespace(r[0])
    ensures r == s[|s| - |r|..]
  {
    if s != [] && IsWhitespace(s[0]) then DropWhitespace(s[1..]) else s
  }

  /** The second replace: every maximal run of whitespace becomes one "-". */
  function CollapseWhitespace(s: seq<char>): (r: seq<char>)
    ensures |r| <= |s|
    ensures r == [] <==> s == []
    ensures forall i :: 0 <= i < |r| ==> !IsWhitespace(r[i])
    decreases |s|
  {
    if s == [] then []
    else if IsWhitespace(s[0]) then ['-'] + CollapseWhitespace(DropWhitespace(s[1..]))
    else [s[0]] + CollapseWhitespace(s[1..])
  }

  /** `toLowerCase`, on the ASCII letters that can reach it. */
  function LowerChar(c: char): (r: char)
    ensures 'A' <= c <= 'Z' ==> 'a' <= r <= 'z' && r as int == c as int + 32
    ensures !('A' <= c <= 'Z') ==> r == c
  {
    if 'A' <= c <= 'Z' then (c as int - 'A' as int + 'a' as int) as char else c
  }

  function Lower(s: seq<char>): (r: seq<char>)
    ensures |r| == |s|
    ensures forall i :: 0 <= i < |s| ==> r[i] == LowerChar(s[i])
  {
    seq(|s|, i requires 0 <= i < |s| => LowerChar(s[i]))
  }

  function FormatLink(link: seq<char>): (r: seq<char>)
    ensures |r| >= 1 && r[0] == '/'
  {
    ['/'] + Lower(CollapseWhitespace(StripDisallowed(link)))
  }

  /** A character that may follow the "/" of a formatted link. */
  predicate LinkChar(c: char)
  {
    ('a' <= c <= 'z') || ('0' <= c <= '9') || c == '-'
  }

  /** No two adjacent dashes. */
  predicate NoDoubleDash(s: seq<char>)
  {
    forall i :: 0 <= i < |s| - 1 ==> !(s[i] == '-' && s[i + 1] == '-')
  }

  /** Letters, digits and dashes, never two dashes in a row. */
  predicate DashedWords(r: seq<char>)
  {
    (forall i :: 0 <= i < |r| ==> IsAsciiLetterOrDigit(r[i]) || r[i] == '-') && NoDoubleDash(r)
  }

  lemma ConsDashedWords(c: char, t: seq<char>)
    requires IsAsciiLetterOrDigit(c) || c == '-'
    requires DashedWords(t)
    requires c == '-' ==> t == [] || t[0] != '-'
    ensures DashedWords([c] + t)
  {
    var r := [c] + t;
    forall i | 0 <= i < |r| - 1 ensures !(r[i] == '-' && r[i + 1] == '-') {
      if i > 0 {
        assert r[i] == t[i - 1] && r[i + 1] == t[i];
      }
    }
  }

  /** Collapsing starts with a dash exactly where the input starts with whitespace. */
  lemma CollapseHead(s: seq<char>)
    requires s != [] && Kept(s[0])
    ensures CollapseWhitespace(s) != []
    ensures CollapseWhitespace(s)[0] == '-' <==> IsWhitespace(s[0])
  {
  }

  /** On input made of kept characters, collapsing leaves letters, digits and
      single dashes. */
  lemma {:induction false} CollapseShape(s: seq<char>)
    requires forall i :: 0 <= i < |s| ==> Kept(s[i])
    ensures DashedWords(CollapseWhitespace(s))
    decreases |s|
  {
    if s != [] {
      if IsWhitespace(s[0]) {
        var d := DropWhitespace(s[1..]);
        assert forall i :: 0 <= i < |d| ==> Kept(d[i]) by {
          forall i | 0 <= i < |d| ensures Kept(d[i]) {
            assert d[i] == s[1..][|s[1..]| - |d| + i];
          }
        }
        CollapseShape(d);
        if d != [] {
          CollapseHead(d);
        }
        ConsDashedWords('-', CollapseWhitespace(d));
      } else {
        CollapseShape(s[1..]);
        ConsDashedWords(s[0], CollapseWhitespace(s[1..]));
      }
    }
  }

  /** The path after "/" holds only lowercase letters, digits and single dashes. */
  lemma FormatLinkShape(link: seq<char>)
    ensures var r := FormatLink(link);
      (forall i :: 1 <= i < |r| ==> LinkChar(r[i])) && NoDoubleDash(r[1..])
  {
    var c := CollapseWhitespace(StripDisallowed(link));
    CollapseShape(StripDisallowed(link));
    assert DashedWords(c);
    var r := FormatLink(link);
    assert r[1..] == Lower(c);
    forall i | 1 <= i < |r| ensures LinkChar(r[i]) {
      assert r[i] == LowerChar(c[i - 1]);
    }
    forall i | 0 <= i < |r[1..]| - 1 ensures !(r[1..][i] == '-' && r[1..][i + 1] == '-') {
      assert r[1..][i] == LowerChar(c[i]) && r[1..][i + 1] == LowerChar(c[i + 1]);
    }
  }

  /** Text with no whitespace passes the second replace unchanged. */
  lemma {:induction false} CollapseNoWhitespace(s: seq<char>)
    requires forall i :: 0 <= i < |s| ==> !IsWhitespace(s[i])
    ensures CollapseWhitespace(s) == s
  {
    if s != [] {
      CollapseNoWhitespace(s[1..]);
    }
  }

  /** A caption of ASCII letters and digits only is just lowercased. */
  lemma PlainCaptionLink(caption: seq<char>)
    requires forall i :: 0 <= i < |caption| ==> IsAsciiLetterOrDigit(caption[i])
    ensures FormatLink(caption) == ['/'] + Lower(caption)
  {
    forall i | 0 <= i < |caption| ensures Kept(caption[i]) && !IsWhitespace(caption[i]) {
      LetterNotWhitespace(caption[i]);
    }
    FilterAll(caption, Kept);
    CollapseNoWhitespace(caption);
  }

  lemma LetterNotWhitespace(c: char)
    requires IsAsciiLetterOrDigit(c)
    ensures Kept(c) && !IsWhitespace(c)
  {
  }

  /** The caption of the storage tab links to "/storage". */
  lemma StorageLink(caption: seq<char>)
    requires caption == "Storage"
    ensures FormatLink(caption) == "/storage"
  {
    assert caption == ['S', 't', 'o', 'r', 'a', 'g', 'e'];
    PlainCaptionLink(caption);
    var low := Lower(caption);
    assert low == ['s', 't', 'o', 'r', 'a', 'g', 'e'];
  }

  predicate NotDash(c: char) { c != '-' }

  predicate NotWhitespace(c: char) { !IsWhitespace(c) }

  lemma {:induction false} DropKeepsWords(s: seq<char>)
    ensures Filter(DropWhitespace(s), NotWhitespace) == Filter(s, NotWhitespace)
  {
    if s != [] && IsWhitespace(s[0]) {
      DropKeepsWords(s[1..]);
    }
  }

  /** Collapsing only turns whitespace into dashes: on dash-free input, the
      characters other than dashes in the output are exactly the characters
      other than whitespace in the input, in order. */
  lemma {:induction false} CollapseKeepsWords(s: seq<char>)
    requires forall i :: 0 <= i < |s| ==> s[i] != '-'
    ensures Filter(CollapseWhitespace(s), NotDash) == Filter(s, NotWhitespace)
    decreases |s|
  {
    if s != [] {
      if IsWhitespace(s[0]) {
        var d := DropWhitespace(s[1..]);
        assert forall i :: 0 <= i < |d| ==> d[i] != '-' by {
          forall i | 0 <= i < |d| ensures d[i] != '-' {
            assert d[i] == s[1..][|s[1..]| - |d| + i];
          }
        }
        CollapseKeepsWords(d);
        DropKeepsWords(s[1..]);
        assert CollapseWhitespace(s) == ['-'] + CollapseWhitespace(d);
      } else {
        CollapseKeepsWords(s[1..]);
        assert CollapseWhitespace(s) == [s[0]] + CollapseWhitespace(s[1..]);
      }
    }
  }
}
