/**
  A WebAssembly component seen as what `wasmparser::Parser::parse_all` yields: a
  stream of payloads in file order, each either parsed or a parse failure. Only
  custom sections are looked at; every other payload is carried as opaque bytes.
*/
module Wasm {

  type byte = b: int | 0 <= b < 256

  datatype Payload =
    | CustomSection(name: string, data: seq<byte>)
    | OtherPayload(raw: seq<byte>)

  datatype Parsed = Item(payload: Payload) | Malformed

  /** The name of the section this tool owns (`PackageMetadata::SECTION_NAME`). */
  const PackageDocsName: string := "package-docs"

  /** Every payload parsed. */
  predicate WellFormed(stream: seq<Parsed>) {
    forall i :: 0 <= i < |stream| ==> stream[i].Item?
  }

  /** The payloads of a well-formed stream, in order. */
  function Payloads(stream: seq<Parsed>): (r: seq<Payload>)
    requires WellFormed(stream)
    ensures |r| == |stream| && forall i :: 0 <= i < |r| ==> stream[i] == Item(r[i])
  {
    seq(|stream|, i requires 0 <= i < |stream| => stream[i].payload)
  }

  /** The stream a parser yields for a component made of these payloads. */
  function Items(payloads: seq<Payload>): (r: seq<Parsed>)
    ensures WellFormed(r) && Payloads(r) == payloads
  {
    seq(|payloads|, i requires 0 <= i < |payloads| => Item(payloads[i]))
  }
}
