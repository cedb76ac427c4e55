/**
The protocol with the sanitizer in place: what is kept and shown of a frame is its cleaned form, and
an input counts as hidden when cleaning would touch it.
*/
module NativeSettings {
  import opened JsonValues
  import opened NativeRecords
  import opened Sanitizer
  import opened ApprovalProtocol

  /**
  `text` is the sanitizer's rewriting of a string, given the request identifiers it has been told to
  leave alone; `sensitive` its test of a key; `upper` is `str.upper`.
  */
  datatype Settings = Settings(
    codec: Codec, text: (set<string>, string) -> string, sensitive: string -> bool, upper: string -> string,
    slot: string, phases: seq<Phase>)

  function CleanerAt(n: Settings, known: set<string>): Cleaner {
    Cleaner(n.codec, (s: string) => n.text(known, s), n.sensitive)
  }

  function Cleaned(n: Settings, known: set<string>, data: Json): Json {
    Clean(CleanerAt(n, known), data)
  }

  /** Part of this tool input would be hidden from the operator. */
  predicate Hidden(n: Settings, known: set<string>, input: Json) {
    var printed := n.codec.str(input);
    Includes(n.upper(printed), "REDACT") || n.text(known, printed) != printed
  }

  function Native(n: Settings): Config {
    Config(n.codec, (known: set<string>, data: Json) => Cleaned(n, known, data),
           (known: set<string>, input: Json) => Hidden(n, known, input), n.slot, n.phases)
  }
}
