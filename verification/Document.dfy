/** A memory file: validated header, verbatim body (siatt/memory/document.py). */
module Document {
  import opened Layout

  type Id = string

  /** Instants are counted in microseconds, the resolution of the source's clock. */
  const SECOND := 1_000_000

  function ToSecond(instant: int): int {
    instant - instant % SECOND
  }

  /** The prose, with the wikilink targets found in it (already stripped and distinct). */
  datatype Body = Body(text: string, links: seq<string>)

  datatype Doc = Doc(
    id: Id, kind: string, title: string, tags: seq<string>, visibility: string,
    created: int, updated: int, confidence: real, salience: real, pinned: bool,
    sourceRefs: seq<string>, supersedes: seq<Id>, body: Body)

  /** What a path holds: text that parses to a memory, or text that does not. */
  datatype File = Memory(doc: Doc) | Broken

  /** The memory files of the working copy. Paths are canonical: one spelling per file. */
  type Tree = map<Path, File>

  /** `touch`: re-stamp `updated` from a clock read to the second. */
  function Touch(doc: Doc, clock: int): Doc {
    doc.(updated := ToSecond(clock))
  }

  /** `parse(render(doc))`: stamps lose their microseconds and the body gains a final newline. */
  function Canonical(doc: Doc): Doc {
    doc.(created := ToSecond(doc.created), updated := ToSecond(doc.updated),
         body := doc.body.(text := WithNewline(doc.body.text)))
  }

  function WithNewline(text: string): string {
    if text == "" || text[|text| - 1] == '\n' then text else text + "\n"
  }

  /** `mem_` followed by a ULID in Crockford's alphabet. */
  predicate IsMemoryId(s: string) {
    && |s| == 30
    && s[..4] == "mem_"
    && '0' <= s[4] <= '7'
    && forall i | 5 <= i < 30 :: IsUlidChar(s[i])
  }

  predicate IsUlidChar(c: char) {
    '0' <= c <= '9' || ('A' <= c <= 'Z' && c !in {'I', 'L', 'O', 'U'})
  }

  lemma ToSecondMonotone(a: int, b: int)
    requires a <= b
    ensures ToSecond(a) <= ToSecond(b) <= b
    ensures ToSecond(ToSecond(a)) == ToSecond(a)
  {
  }
}
