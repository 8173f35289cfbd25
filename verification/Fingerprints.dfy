/** What the fingerprint of a finding identifies (aegis/schemas.py). */
module Fingerprints {
  import opened Schemas
  import opened Text
  import opened DiffText

  /** The digest keeps different texts apart. */
  ghost predicate NoCollisions(sha: string -> string) {
    forall x, y :: sha(x) == sha(y) ==> x == y
  }

  /** No colon in the file name or the CWE. */
  predicate Plain(f: Finding) {
    ':' !in f.file && (f.cwe.Some? ==> ':' !in f.cwe.value)
  }

  /** The rule, or the title of a finding without one. */
  function RuleOrTitle(f: Finding): string {
    if Blank(f.ruleId) then f.title else f.ruleId.value
  }

  predicate SamePlace(f: Finding, g: Finding) {
    && f.file == g.file && f.line == g.line
    && (f.cwe == g.cwe || (Blank(f.cwe) && Blank(g.cwe)))
    && RuleOrTitle(f) == RuleOrTitle(g)
  }

  /** Two findings have one fingerprint if and only if file, line, CWE and rule (or title)
      agree; nothing else of a finding matters. */
  lemma FingerprintsExactly(sha: string -> string, f: Finding, g: Finding)
    requires NoCollisions(sha) && Plain(f) && Plain(g)
    ensures Fingerprint(sha, f) == Fingerprint(sha, g) <==> SamePlace(f, g)
  {
    var cweF, cweG, ruleF, ruleG := Or(f.cwe, ""), Or(g.cwe, ""), Or(f.ruleId, f.title), Or(g.ruleId, g.title);
    if Fingerprint(sha, f) == Fingerprint(sha, g) {
      NoColon(f.line);
      NoColon(g.line);
      var lineF, lineG := Decimal(f.line), Decimal(g.line);
      assert Basis(f.file, lineF, cweF, ruleF) == Basis(g.file, lineG, cweG, ruleG);
      assert ':' !in cweF && ':' !in cweG;
      PartsOfBasis(f.file, lineF, cweF, ruleF, g.file, lineG, cweG, ruleG);
      DecimalInjective(f.line, g.line);
    }
  }

  function Basis(file: string, line: string, cwe: string, rule: string): string {
    file + ":" + line + ":" + cwe + ":" + rule
  }

  lemma PartsOfBasis(a: string, b: string, c: string, d: string, a': string, b': string, c': string, d': string)
    requires Basis(a, b, c, d) == Basis(a', b', c', d')
    requires ':' !in a && ':' !in a' && ':' !in b && ':' !in b' && ':' !in c && ':' !in c'
    ensures a == a' && b == b' && c == c' && d == d'
  {
    assert Basis(a, b, c, d) == a + [':'] + (b + [':'] + (c + [':'] + d));
    assert Basis(a', b', c', d') == a' + [':'] + (b' + [':'] + (c' + [':'] + d'));
    FirstPart(':', a, b + [':'] + (c + [':'] + d), a', b' + [':'] + (c' + [':'] + d'));
    FirstPart(':', b, c + [':'] + d, b', c' + [':'] + d');
    FirstPart(':', c, d, c', d');
  }
}
