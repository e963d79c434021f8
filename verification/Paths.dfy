/** Relative POSIX paths as lists of names, and the provider keys they are joined into. */
module Paths {
  import opened Prelude

  type Path = seq<string>

  predicate NameOk(n: string) { n != "" && '/' !in n }

  predicate PathOk(p: Path) { forall i :: 0 <= i < |p| ==> NameOk(p[i]) }

  /** `"/".join(parts)`. */
  function Join(p: Path): string {
    if p == [] then "" else if |p| == 1 then p[0] else p[0] + "/" + Join(p[1..])
  }

  /** The key test of a scoped query, on texts. */
  predicate AtOrBelow(key: string, scope: string) {
    key == scope || StartsWith(key, scope + "/")
  }

  lemma FirstNameIsUnique(x: string, u: string, y: string)
    requires NameOk(x) && NameOk(y) && StartsWith(x + "/" + u, y + "/")
    ensures x == y
  {
    var s, t := x + "/" + u, y + "/";
    assert forall i :: 0 <= i < |t| ==> s[i] == t[i] by {
      assert forall i :: 0 <= i < |t| ==> s[..|t|][i] == s[i];
    }
    assert s[|x|] == '/' && t[|y|] == '/';
    assert |x| == |y|;
    assert x == s[..|x|] && y == t[..|y|];
  }

  /** A single name is neither below anything nor equal to a longer path. */
  lemma NameIsNotBelow(n: string, h: string, u: string)
    requires NameOk(n)
    ensures n != h + "/" + u && !StartsWith(n, h + "/")
  {
    assert (h + "/" + u)[|h|] == '/';
    assert (h + "/")[|h|] == '/';
  }

  lemma JoinIsNeverEmptyOrEndsInSlash(p: Path)
    requires PathOk(p) && p != []
    ensures Join(p) != "" && Join(p)[|Join(p)| - 1] != '/'
  {
    if |p| > 1 {
      JoinIsNeverEmptyOrEndsInSlash(p[1..]);
    }
  }

  /** On joined keys the textual scope test is exactly the prefix order on part lists. */
  lemma {:induction false} ScopeTestIsPrefix(p: Path, s: Path)
    requires PathOk(p) && PathOk(s) && p != [] && s != []
    ensures AtOrBelow(Join(p), Join(s)) <==> s <= p
  {
    var k, c := Join(p), Join(s);
    if |s| == 1 {
      if |p| == 1 {
        NameIsNotBelow(p[0], s[0], "");
        assert s <= p <==> s[0] == p[0];
      } else {
        NameIsNotBelow(s[0], p[0], Join(p[1..]));
        if StartsWith(k, c + "/") {
          FirstNameIsUnique(p[0], Join(p[1..]), s[0]);
        }
        assert StartsWith(k, p[0] + "/");
      }
    } else {
      assert c == s[0] + "/" + Join(s[1..]);
      assert StartsWith(c, s[0] + "/") && StartsWith(c + "/", s[0] + "/");
      if |p| == 1 {
        NameIsNotBelow(p[0], s[0], Join(s[1..]));
        NameIsNotBelow(p[0], c, "");
      } else {
        var h := s[0] + "/";
        if s[0] == p[0] {
          ScopeTestIsPrefix(p[1..], s[1..]);
          CommonHead(h, Join(p[1..]), Join(s[1..]));
          assert k == h + Join(p[1..]) && c == h + Join(s[1..]);
          assert s == [s[0]] + s[1..] && p == [p[0]] + p[1..];
        } else if AtOrBelow(k, c) {
          assert StartsWith(k, h);
          FirstNameIsUnique(p[0], Join(p[1..]), s[0]);
        }
      }
    }
  }

  lemma CommonHead(h: string, k: string, c: string)
    ensures AtOrBelow(h + k, h + c) <==> AtOrBelow(k, c)
  {
    assert (h + k == h + c) <==> k == c by {
      assert (h + k)[|h|..] == k && (h + c)[|h|..] == c;
    }
    assert (h + c) + "/" == h + (c + "/");
    assert |c| + 1 <= |k| ==> (h + k)[..|h| + |c| + 1] == h + k[..|c| + 1];
    assert |c| + 1 <= |k| ==> (h + k)[..|h| + |c| + 1][|h|..] == k[..|c| + 1];
    assert (h + (c + "/"))[|h|..] == c + "/";
  }

  lemma JoinIsInjective(p: Path, q: Path)
    requires PathOk(p) && PathOk(q) && Join(p) == Join(q) && p != [] && q != []
    ensures p == q
  {
    ScopeTestIsPrefix(p, q);
    ScopeTestIsPrefix(q, p);
  }
}
