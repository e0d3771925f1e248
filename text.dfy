/**
 * The string operations the bot applies to inbound text and callback data:
 * Python's str.strip(), the split("_", 1)[1] that decodes a callback payload,
 * str.startswith, and the command test of aiogram's Command filter.
 */
module Text {
  import opened Options

  /** Python's str.isspace() for one code point: the characters strip() and split() drop. */
  predicate IsSpace(c: char) {
    if c <= ' ' then '\t' <= c <= '\r' || '\U{1C}' <= c
    else c == '\U{85}' || c == '\U{A0}' || c == '\U{1680}' || ('\U{2000}' <= c <= '\U{200A}')
         || c == '\U{2028}' || c == '\U{2029}' || c == '\U{202F}' || c == '\U{205F}' || c == '\U{3000}'
  }

  predicate StartsWith(s: string, prefix: string) {
    |prefix| <= |s| && s[..|prefix|] == prefix
  }

  /** Every character of s is whitespace. */
  predicate AllSpace(s: string) {
    forall k :: 0 <= k < |s| ==> IsSpace(s[k])
  }

  /** No whitespace in s. */
  predicate NoSpace(s: string) {
    forall k :: 0 <= k < |s| ==> !IsSpace(s[k])
  }

  /** Slicing the suffix s[i..] is slicing s itself, shifted by i. */
  lemma SliceOfSuffix(s: string, i: nat, n: nat)
    requires i + n <= |s|
    ensures s[i..][..n] == s[i..i + n]
    ensures s[i..][n..] == s[i + n..]
  {
  }

  /** A whitespace character followed by n - 1 more makes a whitespace prefix of length n. */
  lemma SpaceBeforeSpace(s: string, n: nat)
    requires 0 < n <= |s| && IsSpace(s[0]) && AllSpace(s[1..][..n - 1])
    ensures AllSpace(s[..n])
  {
    forall k | 0 < k < n
      ensures IsSpace(s[..n][k])
    {
      assert s[..n][k] == s[1..][..n - 1][k - 1];
    }
  }

  /** Whitespace from m up to the last character, which is whitespace too, is a whitespace suffix. */
  lemma SpaceAfterSpace(s: string, m: nat)
    requires m < |s| && IsSpace(s[|s| - 1]) && AllSpace(s[..|s| - 1][m..])
    ensures AllSpace(s[m..])
  {
    forall k | 0 <= k < |s| - m - 1
      ensures IsSpace(s[m..][k])
    {
      assert s[m..][k] == s[..|s| - 1][m..][k];
    }
  }

  /** s.lstrip(): the suffix of s left after dropping leading whitespace. */
  function TrimStart(s: string): (r: string)
    ensures |r| <= |s| && r == s[|s| - |r|..]
    ensures AllSpace(s[..|s| - |r|])
    ensures r == [] || !IsSpace(r[0])
  {
    if s != [] && IsSpace(s[0]) then
      var r := TrimStart(s[1..]);
      SliceOfSuffix(s, 1, |s| - 1 - |r|);
      SpaceBeforeSpace(s, |s| - |r|);
      r
    else s
  }

  /** s.rstrip(): the prefix of s left after dropping trailing whitespace. */
  function TrimEnd(s: string): (r: string)
    ensures |r| <= |s| && r == s[..|r|]
    ensures AllSpace(s[|r|..])
    ensures r == [] || !IsSpace(r[|r| - 1])
  {
    if s != [] && IsSpace(s[|s| - 1]) then
      var r := TrimEnd(s[..|s| - 1]);
      SpaceAfterSpace(s, |r|);
      r
    else s
  }

  /** r is the slice of s from i on, and only whitespace of s lies outside that slice. */
  predicate SpaceFramed(s: string, i: int, r: string) {
    0 <= i && i + |r| <= |s| && r == s[i..i + |r|] && AllSpace(s[..i]) && AllSpace(s[i + |r|..])
  }

  /** Cutting whitespace off the front (giving t) and then off the back (giving r) frames r in s. */
  lemma TrimsFrame(s: string, t: string, r: string)
    requires |t| <= |s| && t == s[|s| - |t|..] && AllSpace(s[..|s| - |t|])
    requires |r| <= |t| && r == t[..|r|] && AllSpace(t[|r|..])
    ensures SpaceFramed(s, |s| - |t|, r)
  {
    SliceOfSuffix(s, |s| - |t|, |r|);
  }

  /** s.strip(): s without its leading and trailing whitespace. */
  function Strip(s: string): (r: string)
    ensures |r| <= |s|
    ensures r == [] || (!IsSpace(r[0]) && !IsSpace(r[|r| - 1]))
    ensures r == [] <==> AllSpace(s)
    ensures exists i :: SpaceFramed(s, i, r)
  {
    TrimsFrame(s, TrimStart(s), TrimEnd(TrimStart(s)));
    TrimEnd(TrimStart(s))
  }

  /** Stripping twice strips nothing more. */
  lemma StripIdempotent(s: string)
    ensures Strip(Strip(s)) == Strip(s)
  {
    var r := Strip(s);
    if r != [] {
      assert TrimStart(r) == r;
      assert TrimEnd(r) == r;
    }
  }

  /**
   * s.split("_", 1)[1]: everything after the first underscore. Python raises
   * IndexError when s holds no underscore; the callers only pass payloads that
   * matched a prefix ending in "_", hence the precondition.
   */
  function PayloadArg(s: string): (r: string)
    requires '_' in s
    ensures |r| < |s|
    ensures s[|s| - |r| - 1] == '_' && r == s[|s| - |r|..]
    ensures '_' !in s[..|s| - |r| - 1]
  {
    if s[0] == '_' then s[1..]
    else
      assert '_' in s[1..] by {
        var k :| 0 <= k < |s| && s[k] == '_';
        assert s[1..][k - 1] == '_';
      }
      var r := PayloadArg(s[1..]);
      assert s[..|s| - |r| - 1] == [s[0]] + s[1..][..|s| - 1 - |r| - 1];
      r
  }

  /**
   * Decoding `prefix + x` yields x whenever the prefix is an underscore-free
   * word followed by one underscore, however many underscores x holds.
   */
  lemma PayloadRoundTrip(word: string, x: string)
    requires '_' !in word
    ensures PayloadArg(word + "_" + x) == x
  {
    var s := word + "_" + x;
    assert s[|word|] == '_';
  }

  /** t starts with w, and right after w comes whitespace or the end of t. */
  predicate OpensWith(t: string, w: string) {
    StartsWith(t, w) && (|t| == |w| || IsSpace(t[|w|]))
  }

  /** The longest whitespace-free prefix of t. */
  function TakeWord(t: string): (w: string)
    ensures OpensWith(t, w) && NoSpace(w)
  {
    if t == [] || IsSpace(t[0]) then []
    else
      var w := TakeWord(t[1..]);
      assert [t[0]] + w == t[..|w| + 1];
      [t[0]] + w
  }

  /** A whitespace-free prefix that ends where t ends or at whitespace is t's first word. */
  lemma {:induction false} TakeWordOfWord(t: string, w: string)
    requires OpensWith(t, w) && NoSpace(w)
    ensures TakeWord(t) == w
  {
    if w != [] {
      assert t[0] == w[0] && !IsSpace(w[0]);
      assert t[1..][..|w| - 1] == w[1..];
      assert NoSpace(w[1..]) by {
        forall k | 0 <= k < |w| - 1
          ensures !IsSpace(w[1..][k])
        {
          assert w[1..][k] == w[k + 1];
        }
      }
      TakeWordOfWord(t[1..], w[1..]);
      assert w == [w[0]] + w[1..];
    }
  }

  /** A command word keeps its name's lack of whitespace. */
  lemma SlashWordHasNoSpace(name: string)
    requires NoSpace(name)
    ensures NoSpace("/" + name)
  {
    forall k | 0 <= k < |name| + 1
      ensures !IsSpace(("/" + name)[k])
    {
      if k > 0 {
        assert ("/" + name)[k] == name[k - 1];
      }
    }
  }

  /** text.split(maxsplit=1)[0]: the first whitespace-separated word, empty when there is none. */
  function FirstWord(text: string): (w: string)
    ensures w == [] <==> AllSpace(text)
  {
    TakeWord(TrimStart(text))
  }

  /**
   * aiogram's Command(name) filter, which compares the first
   * whitespace-separated word of the text with "/" + name (the
   * "/name@botname" form is not modelled). Tested directly on the text: after
   * its leading whitespace it starts with "/" + name, followed by whitespace
   * or the end.
   */
  predicate IsCommand(text: string, name: string) {
    OpensWith(TrimStart(text), "/" + name)
  }

  /**
   * For a name without whitespace, as every command name is, the direct test
   * is exactly "the first word of the text is /name".
   */
  lemma CommandIsFirstWord(text: string, name: string)
    requires NoSpace(name)
    ensures IsCommand(text, name) <==> FirstWord(text) == "/" + name
  {
    var t := TrimStart(text);
    if OpensWith(t, "/" + name) {
      SlashWordHasNoSpace(name);
      TakeWordOfWord(t, "/" + name);
    }
  }

  /** A text that does not open with whitespace or a slash is no command. */
  lemma NotACommand(text: string, name: string)
    requires text != [] && !IsSpace(text[0]) && text[0] != '/'
    ensures !IsCommand(text, name)
  {
    assert TrimStart(text) == text;
    assert ("/" + name)[0] == '/';
  }
}
