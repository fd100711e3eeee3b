/** The URL slug the product, category and brand controllers derive from a
    name: lower-case it, replace every run of characters outside [a-z0-9] by
    one '-', then drop one leading and one trailing '-'. */
module Slug {

  predicate IsSlugChar(c: char) {
    'a' <= c <= 'z' || '0' <= c <= '9'
  }

  /** `toLowerCase` on one character (ASCII letters only). */
  function LowerChar(c: char): char {
    if 'A' <= c <= 'Z' then (c as int - 'A' as int + 'a' as int) as char else c
  }

  function LowerCase(s: string): (r: string)
    ensures |r| == |s| && forall i :: 0 <= i < |s| ==> r[i] == LowerChar(s[i])
  {
    if s == [] then [] else [LowerChar(s[0])] + LowerCase(s[1..])
  }

  /** Drops the run of non-slug characters at the front. */
  function SkipRun(s: string): (r: string)
    ensures |r| <= |s| && r == s[|s| - |r|..]
    ensures r == [] || IsSlugChar(r[0])
  {
    if s != [] && !IsSlugChar(s[0]) then SkipRun(s[1..]) else s
  }

  /** `.replace(/[^a-z0-9]+/g, '-')`. */
  function Dashify(s: string): string
    decreases |s|
  {
    if s == [] then []
    else if IsSlugChar(s[0]) then [s[0]] + Dashify(s[1..])
    else "-" + Dashify(SkipRun(s[1..]))
  }

  /** `.replace(/(^-|-$)/g, '')`: at most one leading and one trailing '-'. */
  function TrimDashes(s: string): string {
    var t := if |s| > 0 && s[0] == '-' then s[1..] else s;
    if |t| > 0 && t[|t| - 1] == '-' then t[..|t| - 1] else t
  }

  function MakeSlug(name: string): string {
    TrimDashes(Dashify(LowerCase(name)))
  }

  predicate SlugAlphabet(s: string) {
    forall i :: 0 <= i < |s| ==> IsSlugChar(s[i]) || s[i] == '-'
  }

  predicate NoDoubleDash(s: string) {
    forall i :: 0 <= i < |s| - 1 ==> !(s[i] == '-' && s[i + 1] == '-')
  }

  /** The shape every generated slug has. */
  predicate IsSlug(s: string) {
    SlugAlphabet(s) && NoDoubleDash(s) && (|s| > 0 ==> s[0] != '-' && s[|s| - 1] != '-')
  }

  lemma {:induction false} DashifyShape(s: string)
    ensures SlugAlphabet(Dashify(s)) && NoDoubleDash(Dashify(s))
    ensures Dashify(s) == [] <==> s == []
    ensures s != [] && IsSlugChar(s[0]) ==> Dashify(s)[0] == s[0]
    decreases |s|
  {
    if s != [] {
      if IsSlugChar(s[0]) {
        DashifyShape(s[1..]);
      } else {
        var t := SkipRun(s[1..]);
        DashifyShape(t);
        assert Dashify(s) == "-" + Dashify(t);
      }
    }
  }

  lemma TrimDashesShape(d: string)
    requires SlugAlphabet(d) && NoDoubleDash(d)
    ensures IsSlug(TrimDashes(d))
  {
    var t := if |d| > 0 && d[0] == '-' then d[1..] else d;
    assert SlugAlphabet(t) && NoDoubleDash(t);
    assert |t| > 0 ==> t[0] != '-';
  }

  /** Slugs use only [a-z0-9-], never two '-' in a row, and neither start nor
      end with '-'. */
  lemma SlugShape(name: string)
    ensures IsSlug(MakeSlug(name))
  {
    DashifyShape(LowerCase(name));
    TrimDashesShape(Dashify(LowerCase(name)));
  }

  lemma {:induction false} DashifyOfSlugText(s: string)
    requires SlugAlphabet(s) && NoDoubleDash(s)
    ensures Dashify(s) == s
    decreases |s|
  {
    if s != [] {
      if IsSlugChar(s[0]) {
        DashifyOfSlugText(s[1..]);
      } else {
        assert SkipRun(s[1..]) == s[1..] by {
          assert |s| > 1 ==> IsSlugChar(s[1]);
        }
        DashifyOfSlugText(s[1..]);
      }
    }
  }

  /** A string that already has the slug shape is its own slug. */
  lemma SlugOfSlug(s: string)
    requires IsSlug(s)
    ensures MakeSlug(s) == s
  {
    assert LowerCase(s) == s;
    DashifyOfSlugText(s);
  }

  /** Slugging is idempotent. */
  lemma SlugIdempotent(name: string)
    ensures MakeSlug(MakeSlug(name)) == MakeSlug(name)
  {
    SlugShape(name);
    SlugOfSlug(MakeSlug(name));
  }

  /** Names with no letter or digit all give the empty slug. */
  lemma {:induction false} SlugOfPunctuation(name: string)
    requires forall i :: 0 <= i < |name| ==> !IsSlugChar(LowerChar(name[i]))
    ensures MakeSlug(name) == ""
  {
    var l := LowerCase(name);
    if l != [] {
      assert SkipRun(l[1..]) == [] by { SkipRunAll(l[1..]); }
      assert Dashify(l) == "-";
    }
  }

  lemma {:induction false} SkipRunAll(s: string)
    requires forall i :: 0 <= i < |s| ==> !IsSlugChar(s[i])
    ensures SkipRun(s) == []
  {
    if s != [] {
      SkipRunAll(s[1..]);
    }
  }
}
