// Which filer names count as one: those that agree up to outer spaces and case.
module FilerNames {
  import opened Domain
  import opened ClusterBuying

  /** name is core with spaces around it, and core has none at its ends. */
  ghost predicate IsCore(name: string, before: string, core: string, behind: string) {
    && name == before + core + behind
    && (forall c | c in before || c in behind :: c in " \t\n\r")
    && (core != "" ==> core[0] !in " \t\n\r" && core[|core| - 1] !in " \t\n\r")
  }

  /** Equal, or an upper-case letter beside its lower-case form. */
  predicate SameLetter(c: char, d: char) {
    c == d || ('A' <= c <= 'Z' && d == c - 'A' + 'a') || ('A' <= d <= 'Z' && c == d - 'A' + 'a')
  }

  ghost predicate SameLetters(a: string, b: string) {
    |a| == |b| && forall i | 0 <= i < |a| :: SameLetter(a[i], b[i])
  }

  /** The names differ in outer spaces and in case only. */
  ghost predicate NamesAgree(a: string, b: string) {
    exists p, x, q, r, y, z :: IsCore(a, p, x, q) && IsCore(b, r, y, z) && SameLetters(x, y)
  }

  lemma {:induction false} LeftStripped(s: string) returns (p: string)
    ensures s == p + StripLeft(s) && forall c | c in p :: IsSpace(c)
    ensures StripLeft(s) != "" ==> !IsSpace(StripLeft(s)[0])
  {
    if s != "" && IsSpace(s[0]) {
      var rest := LeftStripped(s[1..]);
      p := [s[0]] + rest;
    } else {
      p := "";
    }
  }

  lemma {:induction false} RightStripped(s: string) returns (q: string)
    ensures s == StripRight(s) + q && forall c | c in q :: IsSpace(c)
    ensures StripRight(s) != "" ==> !IsSpace(StripRight(s)[|StripRight(s)| - 1]) && StripRight(s)[0] == s[0]
  {
    if s != "" && IsSpace(s[|s| - 1]) {
      var rest := RightStripped(s[..|s| - 1]);
      q := rest + [s[|s| - 1]];
      assert s == s[..|s| - 1] + [s[|s| - 1]];
    } else {
      q := "";
    }
  }

  /** Every name has a core: what stripping leaves. */
  lemma HasCore(name: string) returns (p: string, q: string)
    ensures IsCore(name, p, StripRight(StripLeft(name)), q)
  {
    p := LeftStripped(name);
    q := RightStripped(StripLeft(name));
  }

  lemma {:induction false} StripLeftOff(p: string, s: string)
    requires (forall c | c in p :: IsSpace(c)) && (s != "" ==> !IsSpace(s[0]))
    ensures StripLeft(p + s) == s
  {
    if p != "" {
      assert (p + s)[1..] == p[1..] + s;
      StripLeftOff(p[1..], s);
    } else {
      assert p + s == s;
    }
  }

  lemma {:induction false} StripRightOff(s: string, q: string)
    requires (forall c | c in q :: IsSpace(c)) && (s != "" ==> !IsSpace(s[|s| - 1]))
    ensures StripRight(s + q) == s
  {
    if q != "" {
      assert (s + q)[..|s + q| - 1] == s + q[..|q| - 1];
      StripRightOff(s, q[..|q| - 1]);
    } else {
      assert s + q == s;
    }
  }

  /** A name has one core only. */
  lemma CoreIsStripped(name: string, p: string, x: string, q: string)
    requires IsCore(name, p, x, q)
    ensures StripRight(StripLeft(name)) == x
  {
    if x == "" {
      assert name == (p + q) + "";
      StripLeftOff(p + q, "");
    } else {
      assert name == p + (x + q);
      StripLeftOff(p, x + q);
      StripRightOff(x, q);
    }
  }

  lemma {:induction false} LowerExactly(a: string, b: string)
    ensures Lower(a) == Lower(b) <==> SameLetters(a, b)
  {
    LowerLength(a);
    LowerLength(b);
    if a != "" && b != "" {
      LowerExactly(a[1..], b[1..]);
      assert a == [a[0]] + a[1..] && b == [b[0]] + b[1..];
      assert Lower(a)[1..] == Lower(a[1..]) && Lower(b)[1..] == Lower(b[1..]);
      assert Lower(a)[0] == Lower(b)[0] <==> SameLetter(a[0], b[0]);
      if SameLetters(a, b) {
        assert forall i | 0 <= i < |a| - 1 :: a[1..][i] == a[i + 1] && b[1..][i] == b[i + 1];
      }
    }
  }

  lemma LowerLength(s: string)
    ensures |Lower(s)| == |s|
  {}

  /** Two names are one filer's if and only if they agree up to outer spaces and case. */
  lemma NamesAgreeExactly(a: string, b: string)
    ensures NormalizedName(a) == NormalizedName(b) <==> NamesAgree(a, b)
  {
    var p, q := HasCore(a);
    var r, z := HasCore(b);
    LowerExactly(StripRight(StripLeft(a)), StripRight(StripLeft(b)));
    if NamesAgree(a, b) {
      var p', x, q', r', y, z' :| IsCore(a, p', x, q') && IsCore(b, r', y, z') && SameLetters(x, y);
      CoreIsStripped(a, p', x, q');
      CoreIsStripped(b, r', y, z');
    }
  }

  /** Two purchases are one filer's if and only if they carry the same non-empty SEC id or, when
      neither carries one, names that agree. */
  lemma SameFilerExactly(t: Transaction, u: Transaction)
    ensures FilerIdentity(t) == FilerIdentity(u) <==>
      if t.filerId !in {None, Some("")} || u.filerId !in {None, Some("")} then t.filerId == u.filerId
      else NamesAgree(t.filerName, u.filerName)
  {
    NamesAgreeExactly(t.filerName, u.filerName);
  }
}
