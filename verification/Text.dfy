// Ascii folding and view ids (src/Core/StringUtil.h, src/Core/Ids.h).
module Text {

  function LowerChar(c: char): char {
    if 'A' <= c <= 'Z' then (c as int + 32) as char else c
  }

  // ToLowerAscii
  function Lower(s: string): (r: string)
    ensures |r| == |s| && forall i | 0 <= i < |s| :: r[i] == LowerChar(s[i])
  {
    if s == "" then "" else [LowerChar(s[0])] + Lower(s[1..])
  }

  // EqualsCaseInsensitiveAscii
  predicate SameFolded(a: string, b: string) {
    Lower(a) == Lower(b)
  }

  lemma LowerConcat(a: string, b: string)
    ensures Lower(a + b) == Lower(a) + Lower(b)
  {}

  lemma LowerTwice(s: string)
    ensures Lower(Lower(s)) == Lower(s)
  {
    assert forall i | 0 <= i < |s| :: Lower(Lower(s))[i] == LowerChar(LowerChar(s[i]));
  }

  lemma LowerAlready(s: string)
    requires forall i | 0 <= i < |s| :: LowerChar(s[i]) == s[i]
    ensures Lower(s) == s
  {}

  // The mod of a view id: everything before its first slash.
  function ModOf(id: string): (m: string)
    ensures '/' !in m && m <= id
    ensures m == id || (|m| < |id| && id[|m|] == '/')
  {
    if id == "" || id[0] == '/' then "" else [id[0]] + ModOf(id[1..])
  }

  lemma LowerKeepsSlash(s: string)
    ensures '/' in Lower(s) <==> '/' in s
  {
    assert forall i | 0 <= i < |s| :: LowerChar(s[i]) == '/' <==> s[i] == '/';
    if '/' in s {
      var i :| 0 <= i < |s| && s[i] == '/';
      assert Lower(s)[i] == '/';
    }
    if '/' in Lower(s) {
      var i :| 0 <= i < |s| && Lower(s)[i] == '/';
      assert s[i] == '/';
    }
  }

  lemma {:induction false} ModOfJoined(a: string, b: string)
    requires '/' !in a
    ensures ModOf(a + "/" + b) == a
  {
    if a != "" {
      assert (a + "/" + b)[1..] == a[1..] + "/" + b && a[0] in a;
      ModOfJoined(a[1..], b);
    }
  }

  // With no slash in the heads, "head/tail" splits one way only.
  lemma SplitsAtSlash(a: string, b: string, c: string, d: string)
    requires a + "/" + b == c + "/" + d && '/' !in a && '/' !in c
    ensures a == c && b == d
  {
    ModOfJoined(a, b);
    ModOfJoined(c, d);
    assert (a + "/" + b)[|a| + 1..] == b && (c + "/" + d)[|a| + 1..] == d;
  }
}
