/**
 What the two readers make of one JSONL line: the pull loop's `ingestEntry` and the parser behind
 `reindex`.  They treat missing or ill-typed fields differently; the module says exactly on which
 lines they agree.
 */
module Readers {
  import opened Wrappers
  import opened L1Log
  import opened Ingest

  /** A field of a parsed JSON object.  `text` is how a non-string value is stored. */
  datatype Field = Missing | Null | Text(value: string) | Other(truthy: bool, text: string)

  datatype Raw = Raw(id: Field, ts: Field, author: Field, kind: Field, content: Field, deletedAt: Field)

  function TextOr(f: Field, default: string): string {
    if f.Text? then f.value else default
  }

  // ----- the pull loop -----

  /** `None` when the line is skipped; an entry without content keeps content "" and is dropped by
      ingestion. */
  function PullRead(raw: Raw, now: string): Option<Line> {
    if !raw.id.Text? || raw.id.value == "" then None
    else
      Some(Line(raw.id.value,
                Payload(TextOr(raw.ts, now), TextOr(raw.author, "unknown"), TextOr(raw.kind, "memory"),
                        TextOr(raw.content, "")),
                raw.deletedAt.Text?))
  }

  // ----- reindex -----

  const ENTRY_KINDS: set<string> := {"memory", "retro", "event"}

  /** The field itself unless it is null or missing. */
  function Coalesced(f: Field, default: string): string {
    match f
    case Text(v) => v
    case Other(_, t) => t
    case _ => default
  }

  predicate Truthy(f: Field) {
    match f
    case Text(v) => v != ""
    case Other(t, _) => t
    case _ => false
  }

  function ReindexRead(raw: Raw, idOf: (string, string, string) -> string): Option<Line> {
    if !raw.content.Text? then None
    else
      var ts, author := Coalesced(raw.ts, ""), Coalesced(raw.author, "unknown");
      var kind := if raw.kind.Text? && raw.kind.value in ENTRY_KINDS then raw.kind.value else "memory";
      var id := if raw.id.Text? && raw.id.value != "" then raw.id.value
                else idOf(ts, author, raw.content.value);
      Some(Line(id, Payload(ts, author, kind, raw.content.value), Truthy(raw.deletedAt)))
  }

  // ----- where they agree -----

  /** What pulling the line alone stores. */
  function Pulled(raw: Raw, now: string): Memories {
    var line := PullRead(raw, now);
    if line.None? then map[] else IngestLine(map[], line.value)
  }

  /** What rebuilding from the line alone stores. */
  function Rebuilt(raw: Raw, idOf: (string, string, string) -> string): Memories {
    var line := ReindexRead(raw, idOf);
    if line.None? then map[] else ReindexLine(map[], line.value)
  }

  /** What a line must look like for both readers to store the same row. */
  predicate WellFormed(raw: Raw) {
    && raw.id.Text? && raw.id.value != ""
    && raw.content.Text? && raw.content.value != ""
    && raw.ts.Text?
    && (raw.author.Other? ==> raw.author.text == "unknown")
    && (raw.kind.Text? ==> raw.kind.value in ENTRY_KINDS)
    && (match raw.deletedAt case Text(v) => v != "" case Other(t, _) => !t case _ => true)
  }

  /** Both readers store the same row exactly for well-formed lines, and neither stores one exactly when
      the content is no string, provided the clock does not happen to read what the line holds in place
      of a timestamp.  So content "" is one more line they disagree on: pulling drops it. */
  lemma ReadersAgreeIff(raw: Raw, now: string, idOf: (string, string, string) -> string)
    requires raw.ts.Text? || now != Coalesced(raw.ts, "")
    ensures Pulled(raw, now) == Rebuilt(raw, idOf) <==> WellFormed(raw) || !raw.content.Text?
    ensures WellFormed(raw) ==>
      var author := if raw.author.Text? then raw.author.value else "unknown";
      var kind := if raw.kind.Text? then raw.kind.value else "memory";
      Pulled(raw, now) == Rebuilt(raw, idOf) ==
        map[raw.id.value := Row(Payload(raw.ts.value, author, kind, raw.content.value), raw.deletedAt.Text?)]
    ensures !raw.content.Text? ==> Pulled(raw, now) == Rebuilt(raw, idOf) == map[]
  {
    var pulled, rebuilt := PullRead(raw, now), ReindexRead(raw, idOf);
    if WellFormed(raw) {
      assert TextOr(raw.author, "unknown") == Coalesced(raw.author, "unknown");
      assert pulled == rebuilt && pulled.value.id in Rebuilt(raw, idOf);
    } else if raw.content.Text? {
      var id := rebuilt.value.id;
      assert id in Rebuilt(raw, idOf);
      if id in Pulled(raw, now) {
        assert pulled.value.id == id;
        assert Pulled(raw, now)[id] != Rebuilt(raw, idOf)[id];
      }
    }
  }
}
