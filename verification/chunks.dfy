/** The atomic unit of extracted content (`Chunk`, urlscan/urlscan.py). */
module Chunks {
  import opened Wrappers

  /** What urwid is asked to draw for a chunk: a bare string, or an
      (attribute, text) pair such as `('msgtext:bold', 'hello')`. */
  datatype Markup = Plain(text: string) | Styled(style: string, text: string)

  /** A run of text that may be linked to a URL. `markup == None` asks the
      chooser to show an auto-numbered bare link instead. */
  datatype Chunk = Chunk(markup: Option<Markup>, url: Option<string>)

  /** The documented invariant: a chunk without a URL has markup. */
  predicate WellFormed(c: Chunk) {
    c.url.None? ==> c.markup.Some?
  }

  predicate AllWellFormed(cs: seq<Chunk>) {
    forall i :: 0 <= i < |cs| ==> WellFormed(cs[i])
  }

  /** Python truthiness of `chunk.markup`: `None` and `''` are false, every
      (attribute, text) tuple is true. */
  predicate Truthy(m: Option<Markup>) {
    m.Some? && (m.value.Styled? || m.value.text != "")
  }

  /** Python truthiness of `chunk.url`. */
  predicate UrlTruthy(u: Option<string>) {
    u.Some? && u.value != ""
  }
}
