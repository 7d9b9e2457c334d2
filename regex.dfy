/** `regexFromExtensions(extensions)`: the source of a regular expression that matches
    a file name ending in '.' and one of the extensions, with the extensions' own
    dots escaped; `String(regex)` writes the source between slashes. */
module Regex {
  import opened Wrappers
  import Strings

  /** Escapes every '.' as "\.". */
  function EscapeDots(s: string): string
  {
    if s == [] then [] else (if s[0] == '.' then "\\." else [s[0]]) + EscapeDots(s[1..])
  }

  /** Reads every "\." back as '.'. */
  function UnescapeDots(s: string): string
  {
    if s == [] then []
    else if |s| >= 2 && s[0] == '\\' && s[1] == '.' then "." + UnescapeDots(s[2..])
    else [s[0]] + UnescapeDots(s[1..])
  }

  function EscapeAll(extensions: seq<string>): (escaped: seq<string>)
    ensures |escaped| == |extensions|
    ensures forall i :: 0 <= i < |extensions| ==> escaped[i] == EscapeDots(extensions[i])
  {
    seq(|extensions|, i requires 0 <= i < |extensions| => EscapeDots(extensions[i]))
  }

  function UnescapeAll(parts: seq<string>): (unescaped: seq<string>)
    ensures |unescaped| == |parts|
    ensures forall i :: 0 <= i < |parts| ==> unescaped[i] == UnescapeDots(parts[i])
  {
    seq(|parts|, i requires 0 <= i < |parts| => UnescapeDots(parts[i]))
  }

  /** The regular expression source: `\.ext$` for one extension, `\.(a|b|...)$`
      with the alternatives in the given order otherwise. */
  function RegexFromExtensions(extensions: seq<string>): (source: string)
    ensures |source| >= 3 && source[..2] == "\\." && source[|source| - 1] == '$'
  {
    var escaped := EscapeAll(extensions);
    if |extensions| == 1 then "\\." + escaped[0] + "$"
    else "\\.(" + Strings.JoinWith(escaped, '|') + ")$"
  }

  /** `String(regex)` for a source with no '/' and no line terminator, which JavaScript
      would escape. */
  function ToString(source: string): (written: string)
    ensures |written| == |source| + 2 && written[0] == '/' && written[|written| - 1] == '/'
    ensures written[1..|written| - 1] == source
  {
    "/" + source + "/"
  }

  /** The extensions a source built by RegexFromExtensions lists, read back. */
  function Extensions(source: string): Option<seq<string>>
  {
    if |source| >= 5 && source[..3] == "\\.(" && source[|source| - 2..] == ")$" then
      var body := source[3..|source| - 2];
      Some(if body == "" then [] else UnescapeAll(Strings.SplitOn(body, '|')))
    else if |source| >= 3 && source[..2] == "\\." && source[|source| - 1] == '$' then
      Some([UnescapeDots(source[2..|source| - 1])])
    else None
  }

  /** The source for two extensions. */
  lemma RegexFromPair(first: string, second: string)
    ensures RegexFromExtensions([first, second]) == "\\.(" + EscapeDots(first) + "|" + EscapeDots(second) + ")$"
  {
    var a, b := EscapeDots(first), EscapeDots(second);
    assert EscapeAll([first, second]) == [a, b];
    assert Strings.JoinWith([a, b], '|') == a + "|" + b by {
      assert [a, b][1..] == [b];
    }
  }

  /** The escape of a name, a dot and an extension. */
  lemma EscapeDotted(name: string, extension: string)
    requires '.' !in name && '.' !in extension
    ensures EscapeDots(name + "." + extension) == name + "\\." + extension
  {
    EscapeDotsConcat(name + ".", extension);
    EscapeDotsConcat(name, ".");
    EscapeDotsNoDot(name);
    EscapeDotsNoDot(extension);
    assert EscapeDots(".") == "\\.";
  }

  /** An extension as file extensions are written: no alternation or group syntax. */
  predicate IsPlain(extension: string)
  {
    '|' !in extension && '(' !in extension
  }

  /** Escaping works character by character. */
  lemma {:induction false} EscapeDotsConcat(a: string, b: string)
    ensures EscapeDots(a + b) == EscapeDots(a) + EscapeDots(b)
    decreases |a|
  {
    if a == [] {
      assert a + b == b;
    } else {
      assert (a + b)[1..] == a[1..] + b;
      EscapeDotsConcat(a[1..], b);
    }
  }

  /** A string without dots is its own escape. */
  lemma {:induction false} EscapeDotsNoDot(s: string)
    requires '.' !in s
    ensures EscapeDots(s) == s
    decreases |s|
  {
    if s != [] {
      EscapeDotsNoDot(s[1..]);
      assert [s[0]] + s[1..] == s;
    }
  }

  /** An escaped string never starts with an unescaped dot. */
  lemma EscapeDotsStart(s: string)
    requires s != []
    ensures EscapeDots(s) != [] && EscapeDots(s)[0] != '.'
  {
  }

  /** Escaping adds only backslashes and dots. */
  lemma {:induction false} EscapeDotsFree(s: string, c: char)
    requires c != '.' && c != '\\' && c !in s
    ensures c !in EscapeDots(s)
    decreases |s|
  {
    if s != [] {
      EscapeDotsFree(s[1..], c);
    }
  }

  /** Unescaping undoes escaping. */
  lemma {:induction false} UnescapeEscape(s: string)
    ensures UnescapeDots(EscapeDots(s)) == s
    decreases |s|
  {
    if s != [] {
      var rest := EscapeDots(s[1..]);
      UnescapeEscape(s[1..]);
      if s[0] == '.' {
        assert EscapeDots(s) == "\\." + rest;
        assert EscapeDots(s)[2..] == rest;
      } else {
        assert EscapeDots(s) == [s[0]] + rest;
        assert EscapeDots(s)[1..] == rest;
        if s[0] == '\\' && rest != [] {
          EscapeDotsStart(s[1..]);
        }
      }
      assert [s[0]] + s[1..] == s;
    }
  }

  /** The generated source lists exactly the given extensions, in the given order. */
  lemma ExtensionsRoundTrip(extensions: seq<string>)
    requires forall i :: 0 <= i < |extensions| ==> IsPlain(extensions[i])
    ensures Extensions(RegexFromExtensions(extensions)) == Some(extensions)
  {
    var escaped := EscapeAll(extensions);
    var source := RegexFromExtensions(extensions);
    forall i | 0 <= i < |extensions|
      ensures '|' !in escaped[i] && '(' !in escaped[i] && UnescapeDots(escaped[i]) == extensions[i]
    {
      EscapeDotsFree(extensions[i], '|');
      EscapeDotsFree(extensions[i], '(');
      UnescapeEscape(extensions[i]);
    }
    if |extensions| == 1 {
      var e := escaped[0];
      assert source == "\\." + e + "$";
      assert source[..2] == "\\." && source[|source| - 1] == '$';
      assert source[2..|source| - 1] == e;
      if |source| >= 5 {
        assert source[2] == e[0];
        assert e[0] in e;
        assert source[..3][2] != '(';
      }
      assert extensions == [extensions[0]];
    } else {
      var body := Strings.JoinWith(escaped, '|');
      assert source == "\\.(" + body + ")$";
      assert source[..3] == "\\.(" && source[|source| - 2..] == ")$";
      assert source[3..|source| - 2] == body;
      if |extensions| == 0 {
        assert body == "";
      } else {
        assert body != "" by {
          assert body == escaped[0] + ['|'] + Strings.JoinWith(escaped[1..], '|');
        }
        Strings.SplitJoin(escaped, '|');
        assert UnescapeAll(escaped) == extensions;
      }
    }
  }
}
