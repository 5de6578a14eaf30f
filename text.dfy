/** String predicates used by the controllers: the subdomain format check
    and PostgreSQL's `ILIKE '%search%'` as substring containment. */
module Text {

  /** One character of `[a-z0-9-]`. */
  predicate IsSubdomainChar(c: char) {
    ('a' <= c <= 'z') || ('0' <= c <= '9') || c == '-'
  }

  /** The registration check `/^[a-z0-9-]+$/.test(subdomain)`. */
  predicate IsSubdomain(s: string) {
    |s| > 0 && forall i :: 0 <= i < |s| ==> IsSubdomainChar(s[i])
  }

  /** A reference semantics for the two regular-expression operators the
      pattern uses: a bracket class of character ranges and `+`. */
  datatype Regex = AnyOf(ranges: seq<(char, char)>) | Plus(r: Regex)

  /** Whole-string match, as the anchors `^` and `$` require. */
  ghost predicate Matches(re: Regex, s: string)
    decreases re, |s|
  {
    match re
    case AnyOf(ranges) =>
      |s| == 1 && exists j :: 0 <= j < |ranges| && ranges[j].0 <= s[0] <= ranges[j].1
    case Plus(r) =>
      exists k :: 1 <= k <= |s| && Matches(r, s[..k]) && (k == |s| || Matches(Plus(r), s[k..]))
  }

  const SubdomainPattern: Regex := Plus(AnyOf([('a', 'z'), ('0', '9'), ('-', '-')]))

  lemma ClassMatch(s: string)
    ensures Matches(SubdomainPattern.r, s) <==> |s| == 1 && IsSubdomainChar(s[0])
  {
    var ranges := SubdomainPattern.r.ranges;
    if |s| == 1 && IsSubdomainChar(s[0]) {
      if 'a' <= s[0] <= 'z' {
        assert ranges[0].0 <= s[0] <= ranges[0].1;
      } else if '0' <= s[0] <= '9' {
        assert ranges[1].0 <= s[0] <= ranges[1].1;
      } else {
        assert ranges[2].0 <= s[0] <= ranges[2].1;
      }
    }
  }

  /** The handwritten character test is exactly the regular expression
      `^[a-z0-9-]+$`: non-empty, and every character lower-case
      alphanumeric or a hyphen. */
  lemma {:induction false} SubdomainCheckIsPattern(s: string)
    ensures IsSubdomain(s) <==> Matches(SubdomainPattern, s)
    decreases |s|
  {
    if IsSubdomain(s) {
      ClassMatch(s[..1]);
      if |s| > 1 {
        assert IsSubdomain(s[1..]) by {
          forall i | 0 <= i < |s[1..]| ensures IsSubdomainChar(s[1..][i]) {
            assert s[1..][i] == s[i + 1];
          }
        }
        SubdomainCheckIsPattern(s[1..]);
      }
      assert 1 <= 1 <= |s| && Matches(SubdomainPattern.r, s[..1])
        && (1 == |s| || Matches(SubdomainPattern, s[1..]));
    }
    if Matches(SubdomainPattern, s) {
      var k :| 1 <= k <= |s| && Matches(SubdomainPattern.r, s[..k])
        && (k == |s| || Matches(SubdomainPattern, s[k..]));
      ClassMatch(s[..k]);
      assert k == 1;
      if k < |s| {
        SubdomainCheckIsPattern(s[k..]);
      }
      forall i | 0 <= i < |s| ensures IsSubdomainChar(s[i]) {
        if i == 0 {
          assert s[..k][0] == s[0];
        } else {
          assert s[k..][i - 1] == s[i];
        }
      }
    }
  }

  /** ASCII case folding; other characters are compared as they are. */
  function Lower(c: char): (d: char)
    ensures 'A' <= c <= 'Z' ==> 'a' <= d <= 'z' && d as int == c as int + 32
    ensures !('A' <= c <= 'Z') ==> d == c
    ensures !('A' <= d <= 'Z')
  {
    if 'A' <= c <= 'Z' then (c as int + 32) as char else c
  }

  function Fold(s: string): (r: string)
    ensures |r| == |s|
    ensures forall i :: 0 <= i < |s| && 'A' <= s[i] <= 'Z' ==> r[i] as int == s[i] as int + 32
    ensures forall i :: 0 <= i < |s| && !('A' <= s[i] <= 'Z') ==> r[i] == s[i]
    ensures forall i :: 0 <= i < |r| ==> !('A' <= r[i] <= 'Z')
  {
    seq(|s|, i requires 0 <= i < |s| => Lower(s[i]))
  }

  predicate OccursAt(hay: string, needle: string, k: int) {
    0 <= k <= |hay| - |needle| && hay[k..k + |needle|] == needle
  }

  predicate Contains(hay: string, needle: string) {
    exists k | 0 <= k <= |hay| :: OccursAt(hay, needle, k)
  }

  /** `hay ILIKE '%needle%'`. */
  predicate ILike(hay: string, needle: string) {
    Contains(Fold(hay), Fold(needle))
  }

  lemma FoldIdempotent(s: string)
    ensures Fold(Fold(s)) == Fold(s)
  {
  }

  /** Matching ignores the case of the search text. */
  lemma {:induction false} ILikeIgnoresCase(hay: string, needle: string)
    ensures ILike(hay, needle) <==> ILike(hay, Fold(needle))
    ensures ILike(hay, needle) <==> ILike(Fold(hay), needle)
  {
    FoldIdempotent(needle);
    FoldIdempotent(hay);
  }

  /** An exact occurrence is also a case-insensitive one. */
  lemma ContainsIsILike(hay: string, needle: string)
    requires Contains(hay, needle)
    ensures ILike(hay, needle)
  {
    var k :| 0 <= k <= |hay| && OccursAt(hay, needle, k);
    assert hay[k..k + |needle|] == needle;
    assert Fold(hay)[k..k + |needle|] == Fold(needle);
    assert OccursAt(Fold(hay), Fold(needle), k);
  }
}
