/** Parsing of OTEL_EXPORTER_OTLP_HEADERS (phtrace/config.go), on bytes. */
module OtlpHeaders {
  import opened Wrappers

  /** Go strings are bytes: a character here stands for the byte with its code. */
  type Text = string

  ghost predicate IsBytes(s: Text) { forall c | c in s :: c < '\U{100}' }

  /** Trimming and lower-casing below are those of ASCII, which is what Go does on such text. */
  ghost predicate IsAscii(s: Text) { forall c | c in s :: c < '\U{80}' }

  const COMMA := ','
  const EQUALS := '='
  const PERCENT := '%'

  // ---------- the library calls the parser is made of ----------

  predicate IsSpace(b: char) { 9 as char <= b <= 13 as char || b == ' ' }

  function TrimLeft(s: Text): (r: Text)
    ensures r == [] || !IsSpace(r[0])
  {
    if s != [] && IsSpace(s[0]) then TrimLeft(s[1..]) else s
  }

  function TrimRight(s: Text): (r: Text)
    ensures r == [] || !IsSpace(r[|r| - 1])
    ensures r <= s
  {
    if s != [] && IsSpace(s[|s| - 1]) then TrimRight(s[..|s| - 1]) else s
  }

  function Trim(s: Text): Text { TrimRight(TrimLeft(s)) }

  function LowerByte(b: char): char { if 'A' <= b <= 'Z' then b + ' ' else b }

  function Lower(s: Text): (r: Text)
    ensures |r| == |s| && forall i | 0 <= i < |r| :: r[i] == LowerByte(s[i])
  {
    seq(|s|, i requires 0 <= i < |s| => LowerByte(s[i]))
  }

  /** The position of the first `b`, or the length when there is none. */
  function IndexOf(s: Text, b: char): (r: nat)
    ensures r <= |s| && b !in s[..r]
    ensures r < |s| ==> s[r] == b
  {
    if s == [] || s[0] == b then 0
    else
      var r := 1 + IndexOf(s[1..], b);
      assert s[..r] == [s[0]] + s[1..][..r - 1];
      r
  }

  function Split(s: Text, sep: char): (r: seq<Text>)
    ensures |r| > 0
    decreases |s|
  {
    var i := IndexOf(s, sep);
    if i == |s| then [s] else [s[..i]] + Split(s[i + 1..], sep)
  }

  predicate IsHex(b: char) { '0' <= b <= '9' || 'A' <= b <= 'F' || 'a' <= b <= 'f' }

  function Unhex(b: char): (r: nat)
    requires IsHex(b)
    ensures r < 16
  {
    if b <= '9' then (b - '0') as int else if b <= 'F' then (b - 'A') as int + 10 else (b - 'a') as int + 10
  }

  /** Percent-decoding of a path segment: None for a broken escape. */
  function PathUnescape(s: Text): Option<Text> {
    if s == [] then Some([])
    else if s[0] != PERCENT then
      match PathUnescape(s[1..])
      case None => None
      case Some(rest) => Some([s[0]] + rest)
    else if |s| < 3 || !IsHex(s[1]) || !IsHex(s[2]) then None
    else
      match PathUnescape(s[3..])
      case None => None
      case Some(rest) => Some([(16 * Unhex(s[1]) + Unhex(s[2])) as char] + rest)
  }

  predicate IsControl(b: char) { b < ' ' || b == 0x7F as char }

  predicate IsKeyStart(b: char) { 'a' <= b <= 'z' || '0' <= b <= '9' }

  predicate IsKeyByte(b: char) { IsKeyStart(b) || b == '.' || b == '_' || b == '-' }

  /** The regular expression `headerKey`. */
  predicate IsHeaderKey(k: Text) {
    k != [] && IsKeyStart(k[0]) && forall b | b in k :: IsKeyByte(b)
  }

  predicate IsHeaderValue(v: Text) {
    v != [] && forall b | b in v :: !IsControl(b)
  }

  // ---------- the parser ----------

  datatype Fault = NoEquals | BadKey | EmptyValue | BadEncoding | ControlCharacter | RepeatedKey

  /** What an error tells: the entry position from 1, the fault and, except for the first two
      faults, the key.  There is no place in it for a value. */
  datatype Error = Error(position: nat, fault: Fault, key: Option<Text>)

  datatype Header = Header(key: Text, value: Text)

  function KeyOf(entry: Text): Text {
    Lower(Trim(entry[..IndexOf(entry, EQUALS)]))
  }

  /** The text after the first '=', or nothing. */
  function ValueOf(entry: Text): Text {
    var cut := IndexOf(entry, EQUALS);
    if cut == |entry| then [] else Trim(entry[cut + 1..])
  }

  predicate HasControl(s: Text) {
    exists b | b in s :: IsControl(b)
  }

  /** One entry by itself. */
  function ParseEntry(entry: Text, position: nat): Result<Header, Error> {
    var key, value := KeyOf(entry), ValueOf(entry);
    if IndexOf(entry, EQUALS) == |entry| then Err(Error(position, NoEquals, None))
    else if !IsHeaderKey(key) then Err(Error(position, BadKey, None))
    else if value == [] then Err(Error(position, EmptyValue, Some(key)))
    else
      match PathUnescape(value)
      case None => Err(Error(position, BadEncoding, Some(key)))
      case Some(decoded) =>
        if HasControl(decoded) then Err(Error(position, ControlCharacter, Some(key)))
        else Ok(Header(key, decoded))
  }

  function ParseEach(entries: seq<Text>): (r: seq<Result<Header, Error>>)
    ensures |r| == |entries| && forall i | 0 <= i < |r| :: r[i] == ParseEntry(entries[i], i + 1)
  {
    seq(|entries|, i requires 0 <= i < |entries| => ParseEntry(entries[i], i + 1))
  }

  function Add(out: map<Text, Text>, parsed: Result<Header, Error>, position: nat): Result<map<Text, Text>, Error> {
    match parsed
    case Err(e) => Err(e)
    case Ok(h) =>
      if h.key in out then Err(Error(position, RepeatedKey, Some(h.key))) else Ok(out[h.key := h.value])
  }

  /** The first `n` entries, collected from left to right. */
  function Collect(parsed: seq<Result<Header, Error>>, n: nat): Result<map<Text, Text>, Error>
    requires n <= |parsed|
  {
    if n == 0 then Ok(map[])
    else
      match Collect(parsed, n - 1)
      case Err(e) => Err(e)
      case Ok(out) => Add(out, parsed[n - 1], n)
  }

  function Parse(raw: Text): Result<map<Text, Text>, Error> {
    if Trim(raw) == [] then Ok(map[])
    else
      var parsed := ParseEach(Split(raw, COMMA));
      Collect(parsed, |parsed|)
  }

  lemma {:induction false} CollectStops(parsed: seq<Result<Header, Error>>, n: nat, m: nat)
    requires n <= m <= |parsed| && Collect(parsed, n).Err?
    ensures Collect(parsed, m) == Collect(parsed, n)
  {
    if n < m { CollectStops(parsed, n, m - 1); }
  }

  lemma StopsAt(parsed: seq<Result<Header, Error>>, n: nat, out: map<Text, Text>)
    requires n < |parsed| && Collect(parsed, n) == Ok(out)
    ensures Add(out, parsed[n], n + 1).Err? ==> Collect(parsed, |parsed|) == Add(out, parsed[n], n + 1)
  {
    if Add(out, parsed[n], n + 1).Err? { CollectStops(parsed, n + 1, |parsed|); }
  }

  /** The part of the loop body that looks at one entry alone. */
  method ReadEntry(entry: Text, pos: nat) returns (r: Result<Header, Error>)
    ensures r == ParseEntry(entry, pos)
  {
    var cut := IndexOf(entry, EQUALS);
    var ok := cut < |entry|;
    var key, value := entry[..cut], if ok then entry[cut + 1..] else [];
    key := Lower(Trim(key));
    value := Trim(value);
    if !ok {
      return Err(Error(pos, NoEquals, None));
    }
    if !IsHeaderKey(key) {
      return Err(Error(pos, BadKey, None));
    }
    if value == [] {
      return Err(Error(pos, EmptyValue, Some(key)));
    }
    var decoded := PathUnescape(value);
    if decoded.None? {
      return Err(Error(pos, BadEncoding, Some(key)));
    }
    if HasControl(decoded.value) {
      return Err(Error(pos, ControlCharacter, Some(key)));
    }
    return Ok(Header(key, decoded.value));
  }

  /** The parser as a loop that fills a map and leaves at the first fault. */
  method ParseOTLPHeaders(raw: Text) returns (r: Result<map<Text, Text>, Error>)
    ensures r == Parse(raw)
  {
    hide Trim, Split, ParseEntry;
    var out: map<Text, Text> := map[];
    if Trim(raw) == [] {
      return Ok(out);
    }
    var entries := Split(raw, COMMA);
    ghost var parsed := ParseEach(entries);
    for i := 0 to |entries|
      invariant Collect(parsed, i) == Ok(out)
    {
      StopsAt(parsed, i, out);
      var entry := ReadEntry(entries[i], i + 1);
      if entry.Err? {
        return Err(entry.error);
      }
      var key := entry.value.key;
      if key in out {
        return Err(Error(i + 1, RepeatedKey, Some(key)));
      }
      out := out[key := entry.value.value];
    }
    return Ok(out);
  }

  /** The checks that headers set in code must pass. */
  predicate ValidateHeaders(headers: map<Text, Text>) {
    forall k | k in headers :: IsHeaderKey(k) && IsHeaderValue(headers[k])
  }

  // ---------- which fault an entry has ----------

  /** Every percent sign is followed by two hexadecimal digits. */
  ghost predicate IsEscaped(s: Text) {
    forall i | 0 <= i < |s| && s[i] == PERCENT :: i + 2 < |s| && IsHex(s[i + 1]) && IsHex(s[i + 2])
  }

  lemma EscapedRest(s: Text, n: nat)
    requires n <= |s| && (n == 1 || n == 3) && (n == 1 ==> s[0] != PERCENT)
    requires n == 3 ==> s[0] == PERCENT && IsHex(s[1]) && IsHex(s[2])
    ensures IsEscaped(s[n..]) <==> IsEscaped(s)
  {
    if IsEscaped(s[n..]) {
      forall i | 0 <= i < |s| && s[i] == PERCENT ensures i + 2 < |s| && IsHex(s[i + 1]) && IsHex(s[i + 2]) {
        if i >= n { assert s[n..][i - n] == PERCENT; }
      }
    }
  }

  lemma {:induction false} DecodesIffEscaped(s: Text)
    ensures PathUnescape(s).Some? <==> IsEscaped(s)
  {
    if s == [] {
    } else if s[0] != PERCENT {
      DecodesIffEscaped(s[1..]);
      EscapedRest(s, 1);
    } else if |s| >= 3 && IsHex(s[1]) && IsHex(s[2]) {
      DecodesIffEscaped(s[3..]);
      EscapedRest(s, 3);
    }
  }

  /** The entry is `left=right`, cut at its first equals sign. */
  ghost predicate CutsInto(entry: Text, left: Text, right: Text) {
    EQUALS !in left && entry == left + [EQUALS] + right
  }

  /** The fault that an entry has by itself, in terms of its two sides. */
  ghost predicate HasFault(left: Text, right: Text, fault: Fault) {
    var key, value := Lower(Trim(left)), Trim(right);
    match fault
    case NoEquals => false
    case BadKey => !IsHeaderKey(key)
    case EmptyValue => IsHeaderKey(key) && value == []
    case BadEncoding => IsHeaderKey(key) && value != [] && !IsEscaped(value)
    case ControlCharacter =>
      IsHeaderKey(key) && value != [] && IsEscaped(value)
      && PathUnescape(value).Some? && exists b | b in PathUnescape(value).value :: IsControl(b)
    case RepeatedKey => false
  }

  lemma CutIsFirst(entry: Text, left: Text, right: Text)
    requires CutsInto(entry, left, right)
    ensures IndexOf(entry, EQUALS) == |left| < |entry| && entry[..|left|] == left && entry[|left| + 1..] == right
  {
    IndexOfFirst(left, EQUALS, right);
  }

  /** An entry without an equals sign is told so; any other has a fault exactly when one of its sides
      does, and the error tells the position, the fault and, if it is good, the key, and no value. */
  lemma FaultIsExact(entry: Text, position: nat, left: Text, right: Text, fault: Fault)
    requires IsAscii(entry) && CutsInto(entry, left, right)
    ensures var r := ParseEntry(entry, position);
            && (r == Err(Error(position, fault, if fault.BadKey? then None else Some(Lower(Trim(left))))) <==>
                  HasFault(left, right, fault))
            && (r.Err? ==> r.error.position == position && HasFault(left, right, r.error.fault))
            && (r.Ok? ==> r.value.key == Lower(Trim(left)) && PathUnescape(Trim(right)) == Some(r.value.value))
  {
    hide IndexOf, Trim, Lower, IsHeaderKey, IsControl, PathUnescape, IsEscaped;
    CutIsFirst(entry, left, right);
    DecodesIffEscaped(Trim(right));
  }

  lemma NoEqualsIsExact(entry: Text, position: nat)
    ensures ParseEntry(entry, position) == Err(Error(position, NoEquals, None)) <==> EQUALS !in entry
  {
    hide Trim, Lower, IsHeaderKey, IsControl, PathUnescape;
    assert EQUALS in entry ==> IndexOf(entry, EQUALS) < |entry| by {
      assert entry[..|entry|] == entry;
    }
  }

  // ---------- what is accepted, and what is said otherwise ----------

  /** Each of the first `n` entries is good by itself, and no key is given twice. */
  ghost predicate WellFormed(parsed: seq<Result<Header, Error>>, n: nat)
    requires n <= |parsed|
  {
    && (forall i | 0 <= i < n :: parsed[i].Ok?)
    && (forall i, j | 0 <= i < j < n && parsed[i].Ok? && parsed[j].Ok? :: parsed[i].value.key != parsed[j].value.key)
  }

  /** `out` holds the first `n` headers and nothing else. */
  ghost predicate Holds(parsed: seq<Result<Header, Error>>, n: nat, out: map<Text, Text>)
    requires n <= |parsed|
  {
    && (forall i | 0 <= i < n && parsed[i].Ok? :: parsed[i].value.key in out && out[parsed[i].value.key] == parsed[i].value.value)
    && (forall k | k in out :: exists i | 0 <= i < n :: parsed[i].Ok? && parsed[i].value.key == k)
  }

  /** The error is that of the first entry that is bad by itself or repeats a key. */
  ghost predicate Blames(parsed: seq<Result<Header, Error>>, n: nat, e: Error)
    requires n <= |parsed|
  {
    exists p | 0 <= p < n ::
      && WellFormed(parsed, p) && !WellFormed(parsed, p + 1)
      && e == if parsed[p].Err? then parsed[p].error else Error(p + 1, RepeatedKey, Some(parsed[p].value.key))
  }

  ghost predicate Exact(parsed: seq<Result<Header, Error>>, n: nat, r: Result<map<Text, Text>, Error>)
    requires n <= |parsed|
  {
    match r
    case Ok(out) => WellFormed(parsed, n) && Holds(parsed, n, out)
    case Err(e) => Blames(parsed, n, e)
  }

  lemma AddIsExact(parsed: seq<Result<Header, Error>>, n: nat, out: map<Text, Text>)
    requires n < |parsed| && Exact(parsed, n, Ok(out))
    ensures Exact(parsed, n + 1, Add(out, parsed[n], n + 1))
  {
    assert WellFormed(parsed, n);
    if parsed[n].Err? {
      assert !WellFormed(parsed, n + 1);
    } else {
      var h := parsed[n].value;
      if h.key in out {
        var i :| 0 <= i < n && parsed[i].Ok? && parsed[i].value.key == h.key;
        assert !WellFormed(parsed, n + 1);
      } else {
        var out' := out[h.key := h.value];
        forall k | k in out'
          ensures exists i | 0 <= i < n + 1 :: parsed[i].Ok? && parsed[i].value.key == k
        {
          if k == h.key { assert parsed[n].Ok? && parsed[n].value.key == k; }
        }
        assert WellFormed(parsed, n + 1);
      }
    }
  }

  lemma {:induction false} CollectIsExact(parsed: seq<Result<Header, Error>>, n: nat)
    requires n <= |parsed|
    ensures Exact(parsed, n, Collect(parsed, n))
  {
    hide *;
    if n == 0 {
      NothingCollected(parsed);
    } else {
      CollectNext(parsed, n - 1);
      CollectIsExact(parsed, n - 1);
      match Collect(parsed, n - 1)
      case Err(e) => ErrorStays(parsed, n - 1, e);
      case Ok(out) => AddIsExact(parsed, n - 1, out);
    }
  }

  lemma NothingCollected(parsed: seq<Result<Header, Error>>)
    ensures Exact(parsed, 0, Collect(parsed, 0))
  {
  }

  lemma CollectNext(parsed: seq<Result<Header, Error>>, n: nat)
    requires n < |parsed|
    ensures Collect(parsed, n + 1) == match Collect(parsed, n) { case Err(e) => Err(e) case Ok(out) => Add(out, parsed[n], n + 1) }
  {
  }

  lemma ErrorStays(parsed: seq<Result<Header, Error>>, n: nat, e: Error)
    requires n < |parsed| && Exact(parsed, n, Err(e))
    ensures Exact(parsed, n + 1, Err(e))
  {
    hide Blames;
    BlameStays(parsed, n, e);
  }

  lemma BlameStays(parsed: seq<Result<Header, Error>>, n: nat, e: Error)
    requires n < |parsed| && Blames(parsed, n, e)
    ensures Blames(parsed, n + 1, e)
  {
    var p :| 0 <= p < n && WellFormed(parsed, p) && !WellFormed(parsed, p + 1)
      && e == if parsed[p].Err? then parsed[p].error else Error(p + 1, RepeatedKey, Some(parsed[p].value.key));
  }

  lemma BlameIsDeserved(parsed: seq<Result<Header, Error>>, n: nat, e: Error)
    requires n <= |parsed| && Blames(parsed, n, e)
    ensures !WellFormed(parsed, n)
  {
    var p :| 0 <= p < n && !WellFormed(parsed, p + 1);
  }

  /** A text is accepted exactly when it is blank or all its entries are good and no key
      repeats; the map is exactly what the entries say; an error is that of the first entry at
      which this fails. */
  lemma ParseIsExact(raw: Text)
    requires IsAscii(raw)
    ensures var r, parsed := Parse(raw), ParseEach(Split(raw, COMMA));
            if Trim(raw) == [] then r == Ok(map[])
            else (r.Ok? <==> WellFormed(parsed, |parsed|)) && Exact(parsed, |parsed|, r)
  {
    var parsed := ParseEach(Split(raw, COMMA));
    CollectIsExact(parsed, |parsed|);
    if Collect(parsed, |parsed|).Err? { BlameIsDeserved(parsed, |parsed|, Collect(parsed, |parsed|).error); }
  }

  lemma {:induction false} UnescapeKeepsSomething(s: Text)
    ensures PathUnescape(s).Some? && s != [] ==> PathUnescape(s).value != []
  {
  }

  ghost predicate IsValidHeader(h: Header) {
    IsHeaderKey(h.key) && IsHeaderValue(h.value)
  }

  lemma EntryIsValid(entry: Text, p: nat)
    ensures ParseEntry(entry, p).Ok? ==> IsValidHeader(ParseEntry(entry, p).value)
  {
    UnescapeKeepsSomething(ValueOf(entry));
  }

  lemma {:induction false} CollectedAreValid(parsed: seq<Result<Header, Error>>, n: nat)
    requires n <= |parsed| && forall i | 0 <= i < |parsed| && parsed[i].Ok? :: IsValidHeader(parsed[i].value)
    ensures Collect(parsed, n).Ok? ==> ValidateHeaders(Collect(parsed, n).value)
  {
    if n > 0 { CollectedAreValid(parsed, n - 1); }
  }

  /** Whatever the parser accepts also passes the checks for headers set in code. */
  lemma AcceptedIsValid(raw: Text)
    requires IsAscii(raw)
    ensures Parse(raw).Ok? ==> ValidateHeaders(Parse(raw).value)
  {
    var entries := Split(raw, COMMA);
    var parsed := ParseEach(entries);
    forall i | 0 <= i < |parsed| && parsed[i].Ok?
      ensures IsValidHeader(parsed[i].value)
    {
      EntryIsValid(entries[i], i + 1);
    }
    CollectedAreValid(parsed, |parsed|);
  }

  // ---------- round trip ----------

  predicate IsUnreserved(b: char) {
    'A' <= b <= 'Z' || 'a' <= b <= 'z' || '0' <= b <= '9' || b == '-' || b == '.' || b == '_' || b == '~'
  }

  function HexDigit(d: nat): (r: char)
    requires d < 16
    ensures IsHex(r) && Unhex(r) == d
  {
    if d < 10 then '0' + d as char else 'A' + (d - 10) as char
  }

  /** Percent-encoding of every byte outside the unreserved set (sections 2.1 and 2.3 of RFC 3986). */
  function EncodeByte(b: char): Text
    requires b < '\U{100}'
  {
    if IsUnreserved(b) then [b] else [PERCENT, HexDigit(b as int / 16), HexDigit(b as int % 16)]
  }

  function Encode(v: Text): Text
    requires IsBytes(v)
  {
    if v == [] then []
    else
      assert v[0] in v && forall c | c in v[1..] :: c in v;
      EncodeByte(v[0]) + Encode(v[1..])
  }

  lemma ByteRoundTrip(b: char, rest: Text)
    requires b < '\U{100}'
    ensures PathUnescape(rest).Some? ==> PathUnescape(EncodeByte(b) + rest) == Some([b] + PathUnescape(rest).value)
  {
    var all := EncodeByte(b) + rest;
    if IsUnreserved(b) {
      assert all[1..] == rest;
    } else {
      assert all[3..] == rest;
      assert 16 * (b as int / 16) + b as int % 16 == b as int;
    }
  }

  lemma {:induction false} EncodeRoundTrip(v: Text)
    requires IsBytes(v)
    ensures PathUnescape(Encode(v)) == Some(v)
    ensures forall b | b in Encode(v) :: b == PERCENT || IsUnreserved(b)
    ensures v != [] ==> Encode(v) != []
  {
    if v == [] {
    } else {
      assert v[0] in v && forall c | c in v[1..] :: c in v;
      EncodeRoundTrip(v[1..]);
      ByteRoundTrip(v[0], Encode(v[1..]));
      assert [v[0]] + v[1..] == v;
    }
  }

  /** How one header is written: its text for the key and the value, and the blanks around them. */
  datatype Written = Written(key: Text, value: Text, pad0: Text, pad1: Text, pad2: Text, pad3: Text)

  predicate Blank(s: Text) { forall b | b in s :: IsSpace(b) }

  /** A way of writing `h` in ASCII: any letter case for the key, any comma-free text that decodes to the
      value and neither begins nor ends with a blank, and any blanks around the two. */
  ghost predicate Writes(w: Written, h: Header) {
    && IsAscii(w.key) && IsAscii(w.value)
    && Lower(w.key) == h.key
    && PathUnescape(w.value) == Some(h.value)
    && COMMA !in w.value
    && w.value != [] && !IsSpace(w.value[0]) && !IsSpace(w.value[|w.value| - 1])
    && Blank(w.pad0) && Blank(w.pad1) && Blank(w.pad2) && Blank(w.pad3)
  }

  function EntryText(w: Written): Text {
    (w.pad0 + w.key + w.pad1) + [EQUALS] + (w.pad2 + w.value + w.pad3)
  }

  function Join(parts: seq<Text>): Text {
    if parts == [] then [] else if |parts| == 1 then parts[0] else parts[0] + [COMMA] + Join(parts[1..])
  }

  lemma KeysAreLower(k: Text)
    requires IsHeaderKey(k)
    ensures Lower(k) == k
  {
    forall i | 0 <= i < |k|
      ensures LowerByte(k[i]) == k[i]
    {
      assert k[i] in k;
    }
  }

  lemma KeysAreAscii(k: Text)
    requires IsHeaderKey(k)
    ensures IsAscii(k)
  {
  }

  lemma EncodedIsPlain(e: Text)
    requires e != [] && forall b | b in e :: b == PERCENT || IsUnreserved(b)
    ensures IsAscii(e) && COMMA !in e && !IsSpace(e[0]) && !IsSpace(e[|e| - 1])
  {
    assert e[0] in e && e[|e| - 1] in e;
  }

  /** The usual encoding is one such way. */
  lemma StandardWrites(h: Header)
    requires IsHeaderKey(h.key) && IsHeaderValue(h.value) && IsBytes(h.value)
    ensures Writes(Written(h.key, Encode(h.value), [], [], [], []), h)
  {
    hide Encode, PathUnescape, Lower;
    EncodeRoundTrip(h.value);
    EncodedIsPlain(Encode(h.value));
    KeysAreLower(h.key);
    KeysAreAscii(h.key);
  }

  lemma {:induction false} TrimLeftBlank(pad: Text, s: Text)
    requires Blank(pad) && s != [] && !IsSpace(s[0])
    ensures TrimLeft(pad + s) == s
  {
    if pad == [] {
      assert pad + s == s;
    } else {
      assert pad[0] in pad;
      assert (pad + s)[1..] == pad[1..] + s;
      TrimLeftBlank(pad[1..], s);
    }
  }

  lemma {:induction false} TrimRightBlank(s: Text, pad: Text)
    requires Blank(pad) && s != [] && !IsSpace(s[|s| - 1])
    ensures TrimRight(s + pad) == s
  {
    if pad == [] {
      assert s + pad == s;
    } else {
      var m := |pad| - 1;
      assert pad[m] in pad;
      assert (s + pad)[..|s| + m] == s + pad[..m];
      TrimRightBlank(s, pad[..m]);
    }
  }

  lemma TrimBlank(pad: Text, s: Text, pad': Text)
    requires Blank(pad) && Blank(pad') && s != [] && !IsSpace(s[0]) && !IsSpace(s[|s| - 1])
    ensures Trim(pad + s + pad') == s
  {
    assert pad + s + pad' == pad + (s + pad');
    TrimLeftBlank(pad, s + pad');
    TrimRightBlank(s, pad');
  }

  lemma {:induction false} IndexOfFirst(s: Text, b: char, t: Text)
    requires b !in s
    ensures IndexOf(s + [b] + t, b) == |s|
  {
    var all := s + [b] + t;
    if s != [] {
      assert all[0] == s[0] && s[0] in s;
      assert all[1..] == s[1..] + [b] + t;
      IndexOfFirst(s[1..], b, t);
    }
  }

  /** A header key in another letter case is free of '=', commas and blanks. */
  lemma KeyTextIsPlain(k: Text)
    requires IsHeaderKey(Lower(k))
    ensures k != [] && forall b | b in k :: b != EQUALS && b != COMMA && !IsSpace(b)
  {
    forall b | b in k
      ensures b != EQUALS && b != COMMA && !IsSpace(b)
    {
      var i :| 0 <= i < |k| && k[i] == b;
      assert Lower(k)[i] in Lower(k);
    }
  }

  /** An entry written in any of these ways parses to its header. */
  lemma EntryRoundTrip(w: Written, h: Header, p: nat)
    requires IsHeaderKey(h.key) && IsHeaderValue(h.value) && Writes(w, h)
    ensures ParseEntry(EntryText(w), p) == Ok(h)
    ensures COMMA !in EntryText(w)
  {
    KeyTextIsPlain(w.key);
    var left, right := w.pad0 + w.key + w.pad1, w.pad2 + w.value + w.pad3;
    assert EQUALS !in left && COMMA !in left && COMMA !in right;
    IndexOfFirst(left, EQUALS, right);
    assert EntryText(w)[..|left|] == left && EntryText(w)[|left| + 1..] == right;
    assert w.key[0] in w.key && w.key[|w.key| - 1] in w.key;
    TrimBlank(w.pad0, w.key, w.pad1);
    TrimBlank(w.pad2, w.value, w.pad3);
  }

  /** Splitting takes off what stands before the first comma. */
  lemma SplitFirst(part: Text, rest: Text)
    requires COMMA !in part
    ensures Split(part + [COMMA] + rest, COMMA) == [part] + Split(rest, COMMA)
  {
    var all := part + [COMMA] + rest;
    IndexOfFirst(part, COMMA, rest);
    assert all[..|part|] == part && all[|part| + 1..] == rest;
  }

  lemma {:induction false} SplitJoin(parts: seq<Text>)
    requires parts != [] && forall i | 0 <= i < |parts| :: COMMA !in parts[i]
    ensures Split(Join(parts), COMMA) == parts
  {
    if |parts| == 1 {
      assert parts == [parts[0]];
    } else {
      assert Join(parts) == parts[0] + [COMMA] + Join(parts[1..]);
      SplitJoin(parts[1..]);
      SplitFirst(parts[0], Join(parts[1..]));
      assert parts == [parts[0]] + parts[1..];
    }
  }

  function Texts(ws: seq<Written>): (r: seq<Text>)
    ensures |r| == |ws| && forall i | 0 <= i < |r| :: r[i] == EntryText(ws[i])
  {
    seq(|ws|, i requires 0 <= i < |ws| => EntryText(ws[i]))
  }

  /** The first `n` headers as a map. */
  function MapOf(hs: seq<Header>, n: nat): (r: map<Text, Text>)
    requires n <= |hs|
    ensures forall k | k in r :: exists i | 0 <= i < n :: hs[i].key == k
  {
    if n == 0 then map[] else MapOf(hs, n - 1)[hs[n - 1].key := hs[n - 1].value]
  }

  /** `hs` lists the headers of `m`, each once, in some order. */
  ghost predicate Lists(hs: seq<Header>, m: map<Text, Text>) {
    && MapOf(hs, |hs|) == m
    && (forall i, j | 0 <= i < j < |hs| :: hs[i].key != hs[j].key)
  }

  lemma JoinIsNotBlank(parts: seq<Text>)
    requires parts != [] && EQUALS in parts[0]
    ensures Trim(Join(parts)) != []
  {
    assert EQUALS in Join(parts);
    TrimKeeps(Join(parts), EQUALS);
  }

  lemma {:induction false} TrimLeftKeeps(s: Text, b: char)
    requires b in s && !IsSpace(b)
    ensures b in TrimLeft(s)
  {
    if IsSpace(s[0]) {
      assert s == [s[0]] + s[1..];
      TrimLeftKeeps(s[1..], b);
    }
  }

  lemma {:induction false} TrimRightKeeps(s: Text, b: char)
    requires b in s && !IsSpace(b)
    ensures b in TrimRight(s)
  {
    if IsSpace(s[|s| - 1]) {
      assert s == s[..|s| - 1] + [s[|s| - 1]];
      TrimRightKeeps(s[..|s| - 1], b);
    }
  }

  lemma TrimKeeps(s: Text, b: char)
    requires b in s && !IsSpace(b)
    ensures b in Trim(s)
  {
    TrimLeftKeeps(s, b);
    TrimRightKeeps(TrimLeft(s), b);
  }

  lemma {:induction false} CollectWritten(hs: seq<Header>, ws: seq<Written>, n: nat)
    requires n <= |hs| == |ws|
    requires forall i | 0 <= i < |hs| :: IsHeaderKey(hs[i].key) && IsHeaderValue(hs[i].value) && Writes(ws[i], hs[i])
    requires forall i, j | 0 <= i < j < |hs| :: hs[i].key != hs[j].key
    ensures Collect(ParseEach(Texts(ws)), n) == Ok(MapOf(hs, n))
  {
    hide *;
    if n == 0 {
      NothingWritten(hs, ParseEach(Texts(ws)));
    } else {
      CollectWritten(hs, ws, n - 1);
      EntryRoundTrip(ws[n - 1], hs[n - 1], n);
      NextCollected(hs, ParseEach(Texts(ws)), n - 1);
    }
  }

  lemma NothingWritten(hs: seq<Header>, parsed: seq<Result<Header, Error>>)
    ensures Collect(parsed, 0) == Ok(MapOf(hs, 0))
  {
  }

  lemma NextCollected(hs: seq<Header>, parsed: seq<Result<Header, Error>>, n: nat)
    requires n < |hs| == |parsed| && parsed[n] == Ok(hs[n]) && Collect(parsed, n) == Ok(MapOf(hs, n))
    requires forall i, j | 0 <= i < j < |hs| :: hs[i].key != hs[j].key
    ensures Collect(parsed, n + 1) == Ok(MapOf(hs, n + 1))
  {
    CollectNext(parsed, n);
    hide Collect;
    assert hs[n].key !in MapOf(hs, n);
  }

  lemma ListedAreValid(m: map<Text, Text>, hs: seq<Header>, n: nat, i: nat)
    requires i < n <= |hs| && forall i, j | 0 <= i < j < |hs| :: hs[i].key != hs[j].key
    ensures hs[i].key in MapOf(hs, n) && MapOf(hs, n)[hs[i].key] == hs[i].value
  {
  }

  /** For every map of valid headers, in any order of entries and any way of writing them, the
      parser returns exactly that map. */
  lemma RoundTrip(m: map<Text, Text>, hs: seq<Header>, ws: seq<Written>)
    requires ValidateHeaders(m) && Lists(hs, m) && |ws| == |hs|
    requires forall i | 0 <= i < |hs| :: Writes(ws[i], hs[i])
    ensures IsAscii(Join(Texts(ws))) && Parse(Join(Texts(ws))) == Ok(m)
  {
    var parts := Texts(ws);
    forall i | 0 <= i < |parts| ensures IsAscii(parts[i]) {
      EntryIsAscii(ws[i], hs[i]);
    }
    JoinIsAscii(parts);
    if ws != [] {
      forall i | 0 <= i < |hs|
        ensures IsHeaderKey(hs[i].key) && IsHeaderValue(hs[i].value)
      {
        ListedAreValid(m, hs, |hs|, i);
      }
      CollectWritten(hs, ws, |hs|);
      forall i | 0 <= i < |parts|
        ensures COMMA !in parts[i]
      {
        EntryRoundTrip(ws[i], hs[i], 0);
      }
      SplitJoin(parts);
      JoinIsNotBlank(parts);
    }
  }

  lemma EntryIsAscii(w: Written, h: Header)
    requires Writes(w, h)
    ensures IsAscii(EntryText(w))
  {
  }

  lemma {:induction false} JoinIsAscii(parts: seq<Text>)
    requires forall i | 0 <= i < |parts| :: IsAscii(parts[i])
    ensures IsAscii(Join(parts))
  {
    if |parts| > 1 { JoinIsAscii(parts[1..]); }
  }

  lemma {:induction false} MapOfPrefix(hs: seq<Header>, hs': seq<Header>, n: nat)
    requires n <= |hs| && hs <= hs'
    ensures MapOf(hs', n) == MapOf(hs, n)
  {
    if n > 0 { MapOfPrefix(hs, hs', n - 1); }
  }

  lemma ListOneMore(m: map<Text, Text>, hs: seq<Header>, h: Header)
    requires Lists(hs, m) && h.key !in m
    ensures Lists(hs + [h], m[h.key := h.value])
  {
    MapOfPrefix(hs, hs + [h], |hs|);
    forall i | 0 <= i < |hs|
      ensures hs[i].key != h.key
    {
      ListedAreValid(m, hs, |hs|, i);
    }
  }

  lemma Enumerate(m: map<Text, Text>) returns (hs: seq<Header>)
    ensures Lists(hs, m)
    decreases |m|
  {
    if m == map[] {
      hs := [];
    } else {
      var k :| k in m;
      var rest := Enumerate(m - {k});
      hs := rest + [Header(k, m[k])];
      ListOneMore(m - {k}, rest, Header(k, m[k]));
      assert m == (m - {k})[k := m[k]];
    }
  }

  /** The standard way of writing a list of headers. */
  function Standard(hs: seq<Header>): (r: seq<Written>)
    requires forall h | h in hs :: IsBytes(h.value)
    ensures |r| == |hs| && forall i | 0 <= i < |r| :: r[i] == Written(hs[i].key, Encode(hs[i].value), [], [], [], [])
  {
    seq(|hs|, i requires 0 <= i < |hs| => assert hs[i] in hs; Written(hs[i].key, Encode(hs[i].value), [], [], [], []))
  }

  /** The maps the parser can return are exactly those that pass the checks for headers set in
      code. */
  lemma ParsedMapsAreTheValidOnes(m: map<Text, Text>)
    requires forall k | k in m :: IsBytes(m[k])
    ensures ValidateHeaders(m) <==> exists raw :: IsAscii(raw) && Parse(raw) == Ok(m)
  {
    if ValidateHeaders(m) {
      var hs := Enumerate(m);
      forall i | 0 <= i < |hs|
        ensures hs[i].key in m && m[hs[i].key] == hs[i].value
      {
        ListedAreValid(m, hs, |hs|, i);
      }
      var ws := Standard(hs);
      forall i | 0 <= i < |hs|
        ensures Writes(ws[i], hs[i])
      {
        StandardWrites(hs[i]);
      }
      RoundTrip(m, hs, ws);
    } else if raw :| IsAscii(raw) && Parse(raw) == Ok(m) {
      AcceptedIsValid(raw);
    }
  }
}
