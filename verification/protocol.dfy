/** Wire-level vocabulary shared by every component: 64-bit sequence numbers and
    telemetry messages.

    Go's `uint64` wraps, so the arithmetic the tracker performs on sequence
    numbers is written with wrapping operators; that it never actually wraps is
    a theorem (`TrackerLaws.Conservation`), not an assumption. */
module Protocol {
  const MODULUS := 0x1_0000_0000_0000_0000

  type Uint64 = x: int | 0 <= x < 0x1_0000_0000_0000_0000

  datatype Option<+T> = None | Some(value: T)

  function Add64(a: Uint64, b: Uint64): Uint64 {
    if a + b < MODULUS then a + b else a + b - MODULUS
  }

  function Sub64(a: Uint64, b: Uint64): Uint64 {
    if b <= a then a - b else a - b + MODULUS
  }

  /** What a payload parser says of a message: fine, a field out of range
      (a `ValidationError`), or any other failure. The parsers themselves are not
      part of this model; a message carries the answer its parser would give. */
  datatype Verdict = Fine | OutOfRange | Malformed

  datatype Msg = Msg(sensorID: string, sensorType: string, sequence: Uint64, payload: Verdict)

  /** The sensor types whose payload a worker parses; any other type is accepted unread. */
  const PARSED_TYPES: set<string> :=
    {"gps", "drone", "vehicle", "temperature", "radar", "patient_vitals"}

  function Validate(m: Msg): Verdict {
    if m.sensorType in PARSED_TYPES then m.payload else Fine
  }

  /** Nothing occurs twice. */
  ghost predicate Distinct<T>(xs: seq<T>) {
    forall i, j :: 0 <= i < j < |xs| ==> xs[i] != xs[j]
  }

  /** The sequence numbers of one sensor's messages, in the order given. */
  function SeqsOf(ms: seq<Msg>, id: string): seq<Uint64> {
    if ms == [] then []
    else
      var m := ms[|ms| - 1];
      SeqsOf(ms[..|ms| - 1], id) + (if m.sensorID == id then [m.sequence] else [])
  }
}
