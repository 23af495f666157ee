/** The path normalizer: `toWindowsPath` replaces every forward slash of a path
    by a backslash and leaves every other character as it is. */
module WindowsPath {

  /** The character `toWindowsPath` puts in place of `c`. */
  function WindowsChar(c: char): char
  {
    if c == '/' then '\\' else c
  }

  /** `filePath.replace(/\//g, '\\')`, one character at a time. */
  function ToWindowsPath(s: string): string
  {
    if s == [] then [] else [WindowsChar(s[0])] + ToWindowsPath(s[1..])
  }

  /** The reverse substitution, every backslash back to a forward slash. It is
      not part of the extension; it is the partner of the round-trip lemma. */
  function ToPosixPath(s: string): string
  {
    if s == [] then [] else [if s[0] == '\\' then '/' else s[0]] + ToPosixPath(s[1..])
  }

  /** The substitution keeps the length of the path. */
  lemma {:induction false} LengthPreserved(s: string)
    ensures |ToWindowsPath(s)| == |s|
  {
    if s != [] {
      LengthPreserved(s[1..]);
    }
  }

  /** Position by position, a `/` becomes `\` and every other character stays. */
  lemma {:induction false} CharAt(s: string, i: nat)
    requires i < |s|
    ensures |ToWindowsPath(s)| == |s|
    ensures ToWindowsPath(s)[i] == (if s[i] == '/' then '\\' else s[i])
  {
    LengthPreserved(s);
    if i > 0 {
      CharAt(s[1..], i - 1);
    }
  }

  /** The result is the character-wise image of the input. */
  lemma PointwiseImage(s: string)
    ensures ToWindowsPath(s) == seq(|s|, i requires 0 <= i < |s| => WindowsChar(s[i]))
  {
    LengthPreserved(s);
    forall i | 0 <= i < |s|
      ensures ToWindowsPath(s)[i] == WindowsChar(s[i])
    {
      CharAt(s, i);
    }
  }

  /** No forward slash survives the substitution. */
  lemma {:induction false} NoForwardSlash(s: string)
    ensures '/' !in ToWindowsPath(s)
  {
    if s != [] {
      NoForwardSlash(s[1..]);
    }
  }

  /** A backslash in the result comes from a `/` or a `\` at the same place. */
  lemma BackslashOrigin(s: string, i: nat)
    requires i < |s|
    ensures |ToWindowsPath(s)| == |s|
    ensures ToWindowsPath(s)[i] == '\\' <==> s[i] == '/' || s[i] == '\\'
  {
    CharAt(s, i);
  }

  /** On a path without forward slashes the substitution changes nothing. */
  lemma {:induction false} IdentityWithoutSlash(s: string)
    requires '/' !in s
    ensures ToWindowsPath(s) == s
  {
    if s != [] {
      assert '/' !in s[1..] by {
        forall c | c in s[1..] ensures c != '/' { assert c in s; }
      }
      IdentityWithoutSlash(s[1..]);
    }
  }

  /** A path is left unchanged exactly when it holds no forward slash. */
  lemma FixedPointIff(s: string)
    ensures ToWindowsPath(s) == s <==> '/' !in s
  {
    NoForwardSlash(s);
    if '/' !in s {
      IdentityWithoutSlash(s);
    }
  }

  /** Applying the substitution twice is the same as applying it once. */
  lemma Idempotent(s: string)
    ensures ToWindowsPath(ToWindowsPath(s)) == ToWindowsPath(s)
  {
    NoForwardSlash(s);
    IdentityWithoutSlash(ToWindowsPath(s));
  }

  /** The substitution works segment by segment: it distributes over concatenation. */
  lemma {:induction false} Concat(a: string, b: string)
    ensures ToWindowsPath(a + b) == ToWindowsPath(a) + ToWindowsPath(b)
  {
    if a == [] {
      assert a + b == b;
    } else {
      assert (a + b)[1..] == a[1..] + b;
      Concat(a[1..], b);
    }
  }

  /** Turning backslashes back into slashes recovers a path that had no
      backslash of its own. */
  lemma {:induction false} RoundTrip(s: string)
    requires '\\' !in s
    ensures ToPosixPath(ToWindowsPath(s)) == s
  {
    if s != [] {
      assert '\\' !in s[1..] by {
        forall c | c in s[1..] ensures c != '\\' { assert c in s; }
      }
      RoundTrip(s[1..]);
      assert ToWindowsPath(s)[1..] == ToWindowsPath(s[1..]);
    }
  }

  /** The substitution cannot be undone in general: `/` and `\` give the same result. */
  lemma NotInjective()
    ensures ToWindowsPath("a/b") == ToWindowsPath("a\\b")
    ensures "a/b" != "a\\b"
  {
    assert ToWindowsPath("a/b") == "a\\b";
    assert ToWindowsPath("a\\b") == "a\\b";
  }
}
