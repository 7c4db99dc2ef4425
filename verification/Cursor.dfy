/** The opaque history cursor: hexadecimal text around a JSON document, and the query string it
    arrives in (src/api/history.rs). The JSON codec and the UUID parser are parameters. */
module Cursor {
  import opened Common
  import opened Decimal
  import opened Ledger
  import opened History

  datatype CursorData = CursorData(
    v: Byte, account: Id, counterparty: Option<Id>, createdAt: int, entry: Id)

  // The libraries the text passes through.
  datatype Codec = Codec(
    toJson: CursorData -> seq<Byte>, fromJson: seq<Byte> -> Option<CursorData>, parseUuid: string -> Option<Id>)

  // What is asked of the JSON library: a cursor survives, and its document is not empty.
  ghost predicate Faithful(codec: Codec) {
    forall c :: codec.fromJson(codec.toJson(c)) == Some(c) && codec.toJson(c) != []
  }

  datatype QueryError = InvalidLimit | InvalidCursor | MalformedCounterparty

  /* -------------------- hexadecimal -------------------- */

  function HexDigit(n: nat): char
    requires n < 16
  {
    if n < 10 then '0' + n as char else 'a' + (n - 10) as char
  }

  predicate IsHexDigit(c: char) {
    '0' <= c <= '9' || 'a' <= c <= 'f' || 'A' <= c <= 'F'
  }

  function HexValue(c: char): (n: nat)
    requires IsHexDigit(c)
    ensures n < 16
  {
    if c <= '9' then (c - '0') as nat else if c <= 'F' then 10 + (c - 'A') as nat else 10 + (c - 'a') as nat
  }

  predicate AllHex(s: string) {
    forall i :: 0 <= i < |s| ==> IsHexDigit(s[i])
  }

  function ByteOf(high: char, low: char): Byte
    requires IsHexDigit(high) && IsHexDigit(low)
  {
    16 * HexValue(high) + HexValue(low)
  }

  function HexPair(b: Byte): (s: string)
    ensures |s| == 2
  {
    [HexDigit(b / 16), HexDigit(b % 16)]
  }

  function EncodeHex(bytes: seq<Byte>): (s: string)
    ensures |s| == 2 * |bytes|
  {
    if bytes == [] then ""
    else EncodeHex(bytes[..|bytes| - 1]) + HexPair(bytes[|bytes| - 1])
  }

  // Every second position starts a byte.
  function DecodeHex(s: string): (bytes: seq<Byte>)
    requires AllHex(s) && |s| % 2 == 0
    ensures 2 * |bytes| == |s|
  {
    seq(|s| / 2, i requires 0 <= i < |s| / 2 => ByteOf(s[2 * i], s[2 * i + 1]))
  }

  lemma PairRoundTrip(b: Byte)
    ensures IsHexDigit(HexPair(b)[0]) && IsHexDigit(HexPair(b)[1]) && ByteOf(HexPair(b)[0], HexPair(b)[1]) == b
  {
  }

  lemma {:induction false} PairAt(bytes: seq<Byte>, i: nat)
    requires i < |bytes|
    ensures EncodeHex(bytes)[2 * i] == HexPair(bytes[i])[0]
    ensures EncodeHex(bytes)[2 * i + 1] == HexPair(bytes[i])[1]
  {
    if i < |bytes| - 1 {
      PairAt(bytes[..|bytes| - 1], i);
    }
  }

  lemma EncodesToHex(bytes: seq<Byte>)
    ensures AllHex(EncodeHex(bytes))
  {
    var s := EncodeHex(bytes);
    forall k | 0 <= k < |s| ensures IsHexDigit(s[k]) {
      PairAt(bytes, k / 2);
      PairRoundTrip(bytes[k / 2]);
      assert k == 2 * (k / 2) || k == 2 * (k / 2) + 1;
    }
  }

  // Decoding undoes encoding.
  lemma HexRoundTrip(bytes: seq<Byte>)
    ensures AllHex(EncodeHex(bytes)) && DecodeHex(EncodeHex(bytes)) == bytes
  {
    EncodesToHex(bytes);
    forall i | 0 <= i < |bytes| ensures DecodeHex(EncodeHex(bytes))[i] == bytes[i] {
      PairAt(bytes, i);
      PairRoundTrip(bytes[i]);
    }
  }

  function Lower(c: char): char {
    if 'A' <= c <= 'F' then c + ' ' else c
  }

  function LowerCase(s: string): (t: string)
    ensures |t| == |s|
  {
    seq(|s|, i requires 0 <= i < |s| => Lower(s[i]))
  }

  lemma HexValueDigit(c: char)
    requires IsHexDigit(c)
    ensures HexDigit(HexValue(c)) == Lower(c)
  {
  }

  lemma PairOf(hi: nat, lo: nat)
    requires hi < 16 && lo < 16
    ensures HexPair(16 * hi + lo) == [HexDigit(hi), HexDigit(lo)]
  {
    assert (16 * hi + lo) / 16 == hi && (16 * hi + lo) % 16 == lo;
  }

  lemma PairCanonical(c: char, d: char)
    requires IsHexDigit(c) && IsHexDigit(d)
    ensures HexPair(ByteOf(c, d)) == [Lower(c), Lower(d)]
  {
    PairOf(HexValue(c), HexValue(d));
    HexValueDigit(c);
    HexValueDigit(d);
  }

  lemma PairCanonicalAt(s: string, i: nat)
    requires AllHex(s) && |s| % 2 == 0 && 2 * i < |s|
    ensures EncodeHex(DecodeHex(s))[2 * i] == Lower(s[2 * i])
    ensures EncodeHex(DecodeHex(s))[2 * i + 1] == Lower(s[2 * i + 1])
  {
    PairAt(DecodeHex(s), i);
    PairCanonical(s[2 * i], s[2 * i + 1]);
  }

  // Encoding undoes decoding but for upper-case digits, which are accepted too.
  lemma HexCanonical(s: string)
    requires AllHex(s) && |s| % 2 == 0
    ensures EncodeHex(DecodeHex(s)) == LowerCase(s)
  {
    forall k | 0 <= k < |s| ensures EncodeHex(DecodeHex(s))[k] == LowerCase(s)[k] {
      PairCanonicalAt(s, k / 2);
      assert k == 2 * (k / 2) || k == 2 * (k / 2) + 1;
    }
  }

  /* -------------------- the cursor text -------------------- */

  const PREFIX: string := "v1."

  method EncodeCursor(codec: Codec, cursor: CursorData) returns (output: string)
    ensures output == PREFIX + EncodeHex(codec.toJson(cursor))
  {
    var bytes := codec.toJson(cursor);
    output := PREFIX;
    for i := 0 to |bytes|
      invariant output == PREFIX + EncodeHex(bytes[..i])
    {
      assert bytes[..i + 1][..i] == bytes[..i];
      output := output + HexPair(bytes[i]);
    }
    assert bytes[..|bytes|] == bytes;
  }

  function DecodeCursor(codec: Codec, value: string): Result<CursorData, QueryError> {
    if !(PREFIX <= value) then Err(InvalidCursor)
    else
      var hex := value[|PREFIX|..];
      if hex == "" || |hex| % 2 != 0 || !AllHex(hex) then Err(InvalidCursor)
      else
        match codec.fromJson(DecodeHex(hex))
        case None => Err(InvalidCursor)
        case Some(cursor) => if cursor.v != 1 then Err(InvalidCursor) else Ok(cursor)
  }

  // A cursor that was handed out comes back as it was; no other version is accepted.
  lemma CursorRoundTrip(codec: Codec, cursor: CursorData)
    requires Faithful(codec)
    ensures DecodeCursor(codec, PREFIX + EncodeHex(codec.toJson(cursor))) ==
            if cursor.v == 1 then Ok(cursor) else Err(InvalidCursor)
  {
    var json := codec.toJson(cursor);
    HexRoundTrip(json);
    assert (PREFIX + EncodeHex(json))[|PREFIX|..] == EncodeHex(json);
    assert codec.fromJson(json) == Some(cursor);
  }

  // Exactly the texts with the prefix, whole bytes in hexadecimal, and a version 1 document.
  lemma CursorAccepted(codec: Codec, value: string, cursor: CursorData)
    ensures DecodeCursor(codec, value) == Ok(cursor) <==>
            && cursor.v == 1
            && exists bytes: seq<Byte> :: WrittenAs(value, bytes) && codec.fromJson(bytes) == Some(cursor)
  {
    if DecodeCursor(codec, value) == Ok(cursor) {
      var hex := value[|PREFIX|..];
      HexCanonical(hex);
      assert WrittenAs(value, DecodeHex(hex));
    }
    forall bytes: seq<Byte> | WrittenAs(value, bytes) && codec.fromJson(bytes) == Some(cursor) && cursor.v == 1
      ensures DecodeCursor(codec, value) == Ok(cursor)
    {
      WrittenDecodes(value, bytes);
    }
  }

  // The bytes in either case of hexadecimal digits, behind the prefix.
  predicate WrittenAs(value: string, bytes: seq<Byte>) {
    bytes != [] && PREFIX <= value && AllHex(value[|PREFIX|..]) && LowerCase(value[|PREFIX|..]) == EncodeHex(bytes)
  }

  lemma WrittenDecodes(value: string, bytes: seq<Byte>)
    requires WrittenAs(value, bytes)
    ensures var hex := value[|PREFIX|..]; |hex| % 2 == 0 && hex != "" && DecodeHex(hex) == bytes
  {
    var hex := value[|PREFIX|..];
    assert |LowerCase(hex)| == |hex|;
    HexCanonical(hex);
    HexRoundTrip(DecodeHex(hex));
    HexRoundTrip(bytes);
  }

  /* -------------------- the query string -------------------- */

  function IndexOf(s: string, c: char): (i: nat)
    ensures i <= |s| && c !in s[..i] && (i < |s| ==> s[i] == c)
  {
    if s == "" || s[0] == c then 0
    else
      assert s[..1 + IndexOf(s[1..], c)] == [s[0]] + s[1..][..IndexOf(s[1..], c)];
      1 + IndexOf(s[1..], c)
  }

  function Split(s: string, c: char): (parts: seq<string>)
    ensures parts != []
    decreases |s|
  {
    var i := IndexOf(s, c);
    if i == |s| then [s] else [s[..i]] + Split(s[i + 1..], c)
  }

  function Join(parts: seq<string>, c: char): string
    requires parts != []
  {
    if |parts| == 1 then parts[0] else parts[0] + [c] + Join(parts[1..], c)
  }

  lemma {:induction false} SplitJoins(s: string, c: char)
    ensures Join(Split(s, c), c) == s
    ensures forall p :: p in Split(s, c) ==> c !in p
    decreases |s|
  {
    var i := IndexOf(s, c);
    if i < |s| {
      SplitJoins(s[i + 1..], c);
      assert Split(s, c)[1..] == Split(s[i + 1..], c);
      assert s == s[..i] + [c] + s[i + 1..];
    }
  }

  // `split_once('=')`, or the whole part with an empty value.
  function KeyOf(part: string): string {
    part[..IndexOf(part, '=')]
  }

  function ValueOf(part: string): string {
    var i := IndexOf(part, '=');
    if i == |part| then "" else part[i + 1..]
  }

  // A part is cut at its first equals sign; without one it is all key.
  lemma PartSplits(part: string)
    ensures '=' !in KeyOf(part)
    ensures '=' in part ==> part == KeyOf(part) + "=" + ValueOf(part)
    ensures '=' !in part ==> KeyOf(part) == part && ValueOf(part) == ""
  {
    var i := IndexOf(part, '=');
    if i < |part| {
      assert part == part[..i] + [part[i]] + part[i + 1..];
    } else {
      assert part[..i] == part;
    }
  }

  datatype Name = Counterparty | Limit | CursorName

  function NameOf(part: string): Option<Name> {
    if part == "" then None
    else if KeyOf(part) == "counterparty_account_id" then Some(Counterparty)
    else if KeyOf(part) == "limit" then Some(Limit)
    else if KeyOf(part) == "cursor" then Some(CursorName)
    else None
  }

  datatype Raw = Raw(counterparty: Option<string>, limit: Option<string>, cursor: Option<string>)

  // The value given for a name, once.
  predicate Gives(parts: seq<string>, name: Name, value: Option<string>) {
    match value
    case None => forall i :: 0 <= i < |parts| ==> NameOf(parts[i]) != Some(name)
    case Some(v) =>
      exists i :: 0 <= i < |parts| && NameOf(parts[i]) == Some(name) && ValueOf(parts[i]) == v
                  && forall j :: 0 <= j < |parts| && NameOf(parts[j]) == Some(name) ==> i == j
  }

  predicate AllGiven(parts: seq<string>, given: Raw) {
    && Gives(parts, Counterparty, given.counterparty) && Gives(parts, Limit, given.limit)
    && Gives(parts, CursorName, given.cursor)
  }

  predicate Repeats(parts: seq<string>, i: nat) {
    i < |parts| && NameOf(parts[i]).Some? && exists j :: 0 <= j < i && NameOf(parts[j]) == NameOf(parts[i])
  }

  predicate FirstRepeat(parts: seq<string>, i: nat) {
    Repeats(parts, i) && forall j: nat :: j < i ==> !Repeats(parts, j)
  }

  function RepeatError(name: Name): QueryError {
    if name.CursorName? then InvalidCursor else InvalidLimit
  }

  // One more part: a name given already repeats, a name not given yet is given now, and no other
  // name is affected.
  lemma GivesOther(parts: seq<string>, part: string, name: Name, value: Option<string>)
    requires Gives(parts, name, value) && NameOf(part) != Some(name)
    ensures Gives(parts + [part], name, value)
  {
    var after := parts + [part];
    assert forall i :: 0 <= i < |parts| ==> after[i] == parts[i];
    if value.Some? {
      var i :| 0 <= i < |parts| && NameOf(parts[i]) == Some(name) && ValueOf(parts[i]) == value.value
               && forall j :: 0 <= j < |parts| && NameOf(parts[j]) == Some(name) ==> i == j;
      assert NameOf(after[i]) == Some(name);
    }
  }

  lemma GivesFirst(parts: seq<string>, part: string, name: Name)
    requires Gives(parts, name, None) && NameOf(part) == Some(name)
    ensures Gives(parts + [part], name, Some(ValueOf(part)))
  {
    var after := parts + [part];
    assert forall i :: 0 <= i < |parts| ==> after[i] == parts[i];
    assert NameOf(after[|parts|]) == Some(name);
  }

  lemma GivesRepeats(parts: seq<string>, n: nat, name: Name, value: Option<string>)
    requires n < |parts| && Gives(parts[..n], name, value) && NameOf(parts[n]) == Some(name)
    ensures Repeats(parts, n) <==> value.Some?
  {
    assert forall i :: 0 <= i < n ==> parts[..n][i] == parts[i];
  }

  lemma GivesMore(parts: seq<string>, n: nat, name: Name, value: Option<string>)
    requires n < |parts| && Gives(parts[..n], name, value)
    ensures NameOf(parts[n]) != Some(name) ==> Gives(parts[..n + 1], name, value)
    ensures NameOf(parts[n]) == Some(name) && value.None? ==> Gives(parts[..n + 1], name, Some(ValueOf(parts[n])))
    ensures NameOf(parts[n]) == Some(name) ==> (Repeats(parts, n) <==> value.Some?)
  {
    assert parts[..n + 1] == parts[..n] + [parts[n]];
    if NameOf(parts[n]) != Some(name) {
      GivesOther(parts[..n], parts[n], name, value);
    } else {
      GivesRepeats(parts, n, name, value);
      if value.None? {
        GivesFirst(parts[..n], parts[n], name);
      }
    }
  }

  // The loop over the parts of the query string.
  method Scan(parts: seq<string>) returns (r: Result<Raw, QueryError>)
    ensures r.Err? <==> exists i: nat :: Repeats(parts, i)
    ensures r.Err? ==> exists i: nat :: FirstRepeat(parts, i) && r.error == RepeatError(NameOf(parts[i]).value)
    ensures r.Ok? ==> AllGiven(parts, r.value)
  {
    var counterparty, limit, cursor: Option<string> := None, None, None;
    for n := 0 to |parts|
      invariant Gives(parts[..n], Counterparty, counterparty) && Gives(parts[..n], Limit, limit)
      invariant Gives(parts[..n], CursorName, cursor)
      invariant forall j: nat :: j < n ==> !Repeats(parts, j)
    {
      GivesMore(parts, n, Counterparty, counterparty);
      GivesMore(parts, n, Limit, limit);
      GivesMore(parts, n, CursorName, cursor);
      var part := parts[n];
      if part != "" {
        var (key, value) := (KeyOf(part), ValueOf(part));
        if key == "counterparty_account_id" {
          if counterparty.Some? {
            assert FirstRepeat(parts, n);
            return Err(InvalidLimit);
          }
          counterparty := Some(value);
        } else if key == "limit" {
          if limit.Some? {
            assert FirstRepeat(parts, n);
            return Err(InvalidLimit);
          }
          limit := Some(value);
        } else if key == "cursor" {
          if cursor.Some? {
            assert FirstRepeat(parts, n);
            return Err(InvalidCursor);
          }
          cursor := Some(value);
        }
      }
    }
    assert parts[..|parts|] == parts;
    r := Ok(Raw(counterparty, limit, cursor));
  }

  // `str::parse::<i64>`: an optional sign and digits, within range.
  function ParseI64(s: string): Option<int> {
    var signed := s != "" && (s[0] == '-' || s[0] == '+');
    var digits := if signed then s[1..] else s;
    if digits == "" || !AllDigits(digits) then None
    else
      var n := (if signed && s[0] == '-' then -1 else 1) * Value(digits);
      if InI64(n) then Some(n) else None
  }

  const DEFAULT_LIMIT: nat := 50

  function LimitOf(raw: Option<string>): (r: Result<nat, QueryError>)
    ensures r.Ok? ==> 1 <= r.value <= 100
  {
    match raw
    case None => Ok(DEFAULT_LIMIT)
    case Some(text) =>
      match ParseI64(text)
      case None => Err(InvalidLimit)
      case Some(n) => if 1 <= n <= 100 then Ok(n) else Err(InvalidLimit)
  }

  lemma SignedDigits(text: string, digits: string)
    requires digits != "" && AllDigits(digits) && (text == digits || text == "+" + digits)
    ensures ParseI64(text) == if Value(digits) <= I64_MAX then Some(Value(digits)) else None
  {
    assert IsDigit(digits[0]);
    assert text == "+" + digits ==> text[1..] == digits;
  }

  // A limit is a whole number from 1 to 100 in decimal digits, with or without a plus sign and leading
  // zeros; without one it is 50, and every other text is an invalid limit.
  lemma LimitAccepted(text: string, n: nat)
    ensures LimitOf(None) == Ok(50)
    ensures LimitOf(Some(text)) == Ok(n) <==>
            1 <= n <= 100 &&
            exists digits :: digits != "" && AllDigits(digits) && Value(digits) == n && (text == digits || text == "+" + digits)
    ensures LimitOf(Some(text)).Err? ==> LimitOf(Some(text)) == Err(InvalidLimit)
  {
    if LimitOf(Some(text)) == Ok(n) {
      var signed := text[0] == '-' || text[0] == '+';
      var digits := if signed then text[1..] else text;
      assert text == (if signed then [text[0]] else "") + digits;
      assert Value(digits) == n && (text == digits || text == "+" + digits);
    }
    forall digits | 1 <= n <= 100 && digits != "" && AllDigits(digits) && Value(digits) == n
                    && (text == digits || text == "+" + digits)
      ensures LimitOf(Some(text)) == Ok(n)
    {
      SignedDigits(text, digits);
    }
  }

  // In particular every number from 1 to 100 can be asked for.
  lemma EveryLimit(n: nat)
    requires 1 <= n <= 100
    ensures LimitOf(Some(Digits(n))) == Ok(n)
  {
    DigitsValue(n);
    LimitAccepted(Digits(n), n);
  }

  datatype Query = Query(counterparty: Option<Id>, limit: nat, cursor: Option<CursorData>)

  function CounterpartyOf(codec: Codec, raw: Option<string>): Result<Option<Id>, QueryError> {
    match raw
    case None => Ok(None)
    case Some(text) => if codec.parseUuid(text).None? then Err(MalformedCounterparty) else Ok(codec.parseUuid(text))
  }

  function DecodeOptional(codec: Codec, raw: Option<string>): Result<Option<CursorData>, QueryError> {
    match raw
    case None => Ok(None)
    case Some(text) =>
      match DecodeCursor(codec, text)
      case Err(e) => Err(e)
      case Ok(c) => Ok(Some(c))
  }

  // The checks after the loop, in their order.
  function Validate(codec: Codec, raw: Raw, account: Id): Result<Query, QueryError> {
    match CounterpartyOf(codec, raw.counterparty)
    case Err(e) => Err(e)
    case Ok(counterparty) =>
      match LimitOf(raw.limit)
      case Err(e) => Err(e)
      case Ok(limit) =>
        match DecodeOptional(codec, raw.cursor)
        case Err(e) => Err(e)
        case Ok(cursor) =>
          if cursor.Some? && (cursor.value.account != account || cursor.value.counterparty != counterparty)
          then Err(InvalidCursor)
          else Ok(Query(counterparty, limit, cursor))
  }

  // Whatever is wrong with the values, the counterparty is named before the limit and the limit
  // before the cursor.
  lemma FaultsInOrder(codec: Codec, raw: Raw, account: Id)
    ensures var r := Validate(codec, raw, account);
            if raw.counterparty.Some? && codec.parseUuid(raw.counterparty.value).None? then r == Err(MalformedCounterparty)
            else if LimitOf(raw.limit).Err? then r == Err(InvalidLimit)
            else r.Ok? || r == Err(InvalidCursor)
  {
  }

  method ParseQuery(codec: Codec, raw: Option<string>, account: Id) returns (r: Result<Query, QueryError>)
    ensures var parts := Split(if raw.Some? then raw.value else "", '&');
            if exists i: nat :: Repeats(parts, i)
            then exists i: nat :: FirstRepeat(parts, i) && r == Err(RepeatError(NameOf(parts[i]).value))
            else exists given: Raw :: AllGiven(parts, given) && r == Validate(codec, given, account)
  {
    var parts := Split(if raw.Some? then raw.value else "", '&');
    var scanned := Scan(parts);
    match scanned {
      case Err(e) => r := Err(e);
      case Ok(given) => r := Validate(codec, given, account);
    }
  }

  // A query string gives each name at most one value, so the parts determine the result.
  lemma GivenOnce(parts: seq<string>, given: Raw, other: Raw)
    requires AllGiven(parts, given) && AllGiven(parts, other)
    ensures given == other
  {
  }

  // A cursor is accepted for its own account and filter and for no other.
  lemma CursorIsBound(codec: Codec, raw: Raw, account: Id, cursor: CursorData)
    requires Faithful(codec) && cursor.v == 1 && raw.cursor == Some(PREFIX + EncodeHex(codec.toJson(cursor)))
    requires CounterpartyOf(codec, raw.counterparty).Ok? && LimitOf(raw.limit).Ok?
    ensures Validate(codec, raw, account) ==
            if cursor.account == account && cursor.counterparty == CounterpartyOf(codec, raw.counterparty).value
            then Ok(Query(cursor.counterparty, LimitOf(raw.limit).value, Some(cursor)))
            else Err(InvalidCursor)
  {
    CursorRoundTrip(codec, cursor);
  }

  // The cursor a page hands out.
  function CursorAfter(s: Selection, position: Position): CursorData {
    CursorData(1, s.account, s.counterparty, position.createdAt, position.id)
  }

  function PositionOf(query: Query): Option<Position> {
    match query.cursor
    case None => None
    case Some(c) => Some(Position(c.createdAt, c.entry))
  }

  // Sent back with the same account and filter, it starts the next page where the last one ended.
  lemma NextPageResumes(codec: Codec, s: Selection, position: Position, raw: Raw)
    requires Faithful(codec) && raw.cursor == Some(PREFIX + EncodeHex(codec.toJson(CursorAfter(s, position))))
    requires CounterpartyOf(codec, raw.counterparty) == Ok(s.counterparty) && LimitOf(raw.limit).Ok?
    ensures Validate(codec, raw, s.account).Ok?
    ensures PositionOf(Validate(codec, raw, s.account).value) == Some(position)
    ensures Selection(s.account, Validate(codec, raw, s.account).value.counterparty) == s
  {
    CursorIsBound(codec, raw, s.account, CursorAfter(s, position));
  }
}
