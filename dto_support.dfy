/**
 * Text handling shared by the request and summary records: the clean-up
 * their canonical constructors perform, the description truncation of the
 * summaries, and the Bean Validation constraints the controllers enforce
 * (@NotBlank, @NotNull, @Size, @Pattern) as predicates on field values.
 */
module DtoSupport {
  import opened Common

  /** `if (x != null) x = x.trim();` */
  function TrimPresent(x: Option<string>): (r: Option<string>)
    ensures r.None? <==> x.None?
    ensures r.Some? ==> r.value == Trim(x.value)
  {
    if x.Some? then Some(Trim(x.value)) else None
  }

  /** `if (x != null) { x = x.trim(); if (x.isEmpty()) x = null; }` */
  function TrimToNull(x: Option<string>): (r: Option<string>)
    ensures r.None? <==> x.None? || IsBlank(x.value)
    ensures r.Some? ==> r.value == Trim(x.value) && r.value != []
  {
    if x.Some? && !IsBlank(x.value) then Some(Trim(x.value)) else None
  }

  /** Both clean-ups leave an already cleaned value unchanged. */
  lemma CleanUpIdempotent(x: Option<string>)
    ensures TrimPresent(TrimPresent(x)) == TrimPresent(x)
    ensures TrimToNull(TrimToNull(x)) == TrimToNull(x)
  {
    if x.Some? {
      TrimIdempotent(x.value);
    }
  }

  const SummaryDescriptionMax: nat := 100
  const SummaryDescriptionKept: nat := 97

  /**
   * The summary records shorten a description longer than 100 characters
   * to its first 97 characters followed by "...".
   */
  function Truncate(d: Option<string>): (r: Option<string>)
    ensures r.None? <==> d.None?
    ensures r.Some? ==> |r.value| <= SummaryDescriptionMax
    ensures r.Some? && |d.value| <= SummaryDescriptionMax ==> r.value == d.value
    ensures r.Some? && |d.value| > SummaryDescriptionMax ==>
              |r.value| == SummaryDescriptionMax
              && r.value[..SummaryDescriptionKept] == d.value[..SummaryDescriptionKept]
              && r.value[SummaryDescriptionKept..] == "..."
  {
    if d.Some? && |d.value| > SummaryDescriptionMax then Some(d.value[..SummaryDescriptionKept] + "...")
    else d
  }

  /** Truncating a truncated description changes nothing. */
  lemma TruncateIdempotent(d: Option<string>)
    ensures Truncate(Truncate(d)) == Truncate(d)
  {
  }

  // ------------------------------------------------------ bean validation

  /** @NotBlank (Hibernate): not null, and not empty once trimmed. */
  predicate NotBlank(x: Option<string>) {
    x.Some? && !IsBlank(x.value)
  }

  /** @Size(min, max): a null value passes; otherwise its length is in range. */
  predicate SizeBetween(x: Option<string>, min: nat, max: nat) {
    x.None? || min <= |x.value| <= max
  }

  /** The characters Java's `.` does not match without DOTALL. */
  predicate IsLineTerminator(c: char) {
    c == '\n' || c == '\r' || c == '\U{85}' || c == '\U{2028}' || c == '\U{2029}'
  }

  function HasPrefix(s: string, p: string): bool {
    |p| <= |s| && s[..|p|] == p
  }

  /** `s` starts with `scheme` and no line terminator follows it. */
  predicate SchemeThenLine(s: string, scheme: string) {
    HasPrefix(s, scheme) && forall i :: |scheme| <= i < |s| ==> !IsLineTerminator(s[i])
  }

  /** @Pattern("^https?://.*") matched against the whole value. */
  predicate UrlPattern(x: Option<string>) {
    x.None? || SchemeThenLine(x.value, "http://") || SchemeThenLine(x.value, "https://")
  }

  predicate IsKeyChar(c: char) {
    'A' <= c <= 'Z' || '0' <= c <= '9' || c == '_'
  }

  /** @Pattern("^[A-Z0-9_]+$") matched against the whole value. */
  predicate KeyPattern(x: Option<string>) {
    x.None? || (|x.value| > 0 && forall i :: 0 <= i < |x.value| ==> IsKeyChar(x.value[i]))
  }

  /** @Pattern("^(ACTIVO|INACTIVO)$") matched against the whole value. */
  predicate EstadoPattern(x: Option<string>) {
    x.None? || x.value == "ACTIVO" || x.value == "INACTIVO"
  }
}
