/**
  Go `interface{}` values as they travel through request contexts, JWT claim maps and
  preference maps. Each constructor is one dynamic Go type; a type switch in the source
  becomes a match here.
*/
module GoValues {

  datatype Value =
    | Nil                   // untyped nil (e.g. a missing map entry)
    | Bool(b: bool)
    | Int(i: int)           // Go `int` (64 bits)
    | Int64(i: int)         // Go `int64`, what `time.Time.Unix()` returns
    | Uint(n: nat)          // Go `uint` (64 bits), the type of `User.ID`
    | Float64(x: real)      // what encoding/json produces for every JSON number
    | Float32(x: real)
    | Str(s: string)
  {
    /** The dynamic types `ExtractUserID`'s type switch converts to uint. */
    predicate IsUintConvertible()
    {
      Float64? || Float32? || Int? || Uint?
    }
  }

  const TwoTo64: nat := 0x1_0000_0000_0000_0000

  /** Every integer up to 2^53 has an exact float64; above it the gaps exceed 1. */
  const TwoTo53: nat := 0x20_0000_0000_0000

  /** Every JSON number decodes to float64; all other scalars keep their type. */
  function JsonDecoded(v: Value): Value
  {
    match v
    case Int(i) => Float64(i as real)
    case Int64(i) => Float64(i as real)
    case Uint(n) => Float64(n as real)
    case Float32(x) => Float64(x)
    case _ => v
  }

  /** The value a JSON round trip gives back for every entry of a claim map. */
  function JsonDecodedMap(m: map<string, Value>): (r: map<string, Value>)
    ensures r.Keys == m.Keys
    ensures forall k :: k in m ==> r[k] == JsonDecoded(m[k])
  {
    map k | k in m :: JsonDecoded(m[k])
  }

  // ---------------------------------------------------------------- Go strings are UTF-8 bytes

  /** The bytes UTF-8 spends on one character (RFC 3629 section 3). */
  function Utf8Width(ch: char): (w: nat)
    ensures 1 <= w <= 4
  {
    var c := ch as int;
    if c < 0x80 then 1 else if c < 0x800 then 2 else if c < 0x1_0000 then 3 else 4
  }

  /** `len(s)` of the Go string holding `s`: its length in UTF-8 bytes. */
  function Utf8Length(s: string): nat
  {
    if s == [] then 0 else Utf8Width(s[0]) + Utf8Length(s[1..])
  }

  /**
    The longest prefix of `s` whose bytes lie within the first `n` bytes: the characters a
    byte slice `s[:n]` keeps whole.
  */
  function CharsWithinBytes(s: string, n: nat): (p: string)
    ensures p <= s && Utf8Length(p) <= n
    ensures p == s || Utf8Length(p) + Utf8Width(s[|p|]) > n
  {
    if s == [] || Utf8Width(s[0]) > n then []
    else
      var rest := CharsWithinBytes(s[1..], n - Utf8Width(s[0]));
      assert ([s[0]] + rest)[1..] == rest;
      [s[0]] + rest
  }

  predicate IsAscii(s: string)
  {
    forall i :: 0 <= i < |s| ==> s[i] as int < 0x80
  }

  /** For ASCII text bytes and characters coincide: byte length is length, a byte slice a slice. */
  lemma {:induction false} AsciiBytesAreChars(s: string, n: nat)
    requires IsAscii(s)
    ensures Utf8Length(s) == |s|
    ensures n <= |s| ==> CharsWithinBytes(s, n) == s[..n]
    decreases |s|
  {
    if s != [] {
      assert IsAscii(s[1..]) by {
        forall i | 0 <= i < |s[1..]| ensures s[1..][i] as int < 0x80 {
          assert s[1..][i] == s[i + 1];
        }
      }
      assert s[0] as int < 0x80;
      if n >= 1 {
        AsciiBytesAreChars(s[1..], n - 1);
        if n <= |s| {
          assert s[..n] == [s[0]] + s[1..][..n - 1];
        }
      } else {
        AsciiBytesAreChars(s[1..], 0);
      }
    }
  }
}
