/** The name patterns and bounds the wizards validate against, written out as predicates. */
module WizardRules {
  import opened Text

  const MAX_REPLICAS := 1000
  const MAX_PORT := 65535
  const MAX_DATA := 1024 * 1024

  predicate IsAlphanumeric(c: char) {
    IsDigit(c) || IsLower(c) || IsUpper(c)
  }

  /** Lowercase alphanumeric with inner hyphens, 1 to 63 characters. */
  predicate DnsLabel(s: string) {
    && 1 <= |s| <= 63
    && s[0] != '-' && s[|s| - 1] != '-'
    && forall k :: 0 <= k < |s| ==> IsLower(s[k]) || IsDigit(s[k]) || s[k] == '-'
  }

  /** A letter or underscore, then letters, digits and underscores. */
  predicate EnvVarName(s: string) {
    && 1 <= |s|
    && !IsDigit(s[0])
    && forall k :: 0 <= k < |s| ==> IsAlphanumeric(s[k]) || s[k] == '_'
  }

  /** Alphanumeric at both ends, dots, underscores and hyphens between, 1 to 253 characters. */
  predicate DataKey(s: string) {
    && 1 <= |s| <= 253
    && IsAlphanumeric(s[0]) && IsAlphanumeric(s[|s| - 1])
    && forall k :: 0 <= k < |s| ==> IsAlphanumeric(s[k]) || s[k] == '.' || s[k] == '_' || s[k] == '-'
  }

  /** As the pattern `^[a-z0-9]([a-z0-9-]{0,61}[a-z0-9])?$` has it. */
  lemma DnsLabelPattern(s: string)
    ensures var outer := (c: char) => 'a' <= c <= 'z' || '0' <= c <= '9';
            var inner := (c: char) => 'a' <= c <= 'z' || '0' <= c <= '9' || c == '-';
            DnsLabel(s) <==> Enclosed(s, outer, inner, 61)
  {
    EnclosedAt(s, (c: char) => 'a' <= c <= 'z' || '0' <= c <= '9', (c: char) => 'a' <= c <= 'z' || '0' <= c <= '9' || c == '-', 61);
  }

  /** As the pattern `^[a-zA-Z0-9]([a-zA-Z0-9._-]{0,251}[a-zA-Z0-9])?$` has it. */
  lemma DataKeyPattern(s: string)
    ensures var outer := (c: char) => 'a' <= c <= 'z' || 'A' <= c <= 'Z' || '0' <= c <= '9';
            var inner := (c: char) => outer(c) || c == '.' || c == '_' || c == '-';
            DataKey(s) <==> Enclosed(s, outer, inner, 251)
  {
    var outer := (c: char) => 'a' <= c <= 'z' || 'A' <= c <= 'Z' || '0' <= c <= '9';
    EnclosedAt(s, outer, (c: char) => outer(c) || c == '.' || c == '_' || c == '-', 251);
  }

  /** As the pattern `^[A-Za-z_][A-Za-z0-9_]*$` has it. */
  lemma EnvVarNamePattern(s: string)
    ensures var first := (c: char) => 'a' <= c <= 'z' || 'A' <= c <= 'Z' || c == '_';
            EnvVarName(s) <==> exists c, rest: string ::
              s == [c] + rest && first(c) && forall k :: 0 <= k < |rest| ==> first(rest[k]) || '0' <= rest[k] <= '9'
  {
    if EnvVarName(s) {
      assert s == [s[0]] + s[1..];
    }
  }
}
