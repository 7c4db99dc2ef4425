/** The bytes a request fingerprint is hashed from. The digest itself (SHA-256) is taken to be free
    of collisions, so two requests have the same fingerprint exactly when these bytes agree.
    (src/idempotency.rs) */
module Fingerprints {
  import opened Common
  import opened Ledger
  import opened ExactlyOnce
  import Money

  function Pow256(n: nat): (p: nat)
    ensures p > 0
  {
    if n == 0 then 1 else 256 * Pow256(n - 1)
  }

  // `to_be_bytes` of an unsigned number, and the bytes of a UUID.
  function BigEndian(n: nat, width: nat): (s: seq<Byte>)
    ensures |s| == width
  {
    if width == 0 then [] else BigEndian(n / 256, width - 1) + [n % 256]
  }

  function FromBigEndian(s: seq<Byte>): nat {
    if s == [] then 0 else FromBigEndian(s[..|s| - 1]) * 256 + s[|s| - 1]
  }

  lemma {:induction false} BigEndianRoundTrip(n: nat, width: nat)
    requires n < Pow256(width)
    ensures FromBigEndian(BigEndian(n, width)) == n
  {
    if width > 0 {
      BigEndianRoundTrip(n / 256, width - 1);
      assert BigEndian(n, width)[..width - 1] == BigEndian(n / 256, width - 1);
    }
  }

  // The unsigned number with the same 64 bits.
  function TwosComplement(n: int): nat
    requires InI64(n)
  {
    if n < 0 then n + 0x1_0000_0000_0000_0000 else n
  }

  function I64Bytes(n: int): (s: seq<Byte>)
    requires InI64(n)
    ensures |s| == 8
  {
    BigEndian(TwosComplement(n), 8)
  }

  predicate IsUuid(id: Id) {
    0 <= id < 0x1_0000_0000_0000_0000_0000_0000_0000_0000
  }

  function UuidBytes(id: Id): (s: seq<Byte>)
    requires IsUuid(id)
    ensures |s| == 16
  {
    BigEndian(id, 16)
  }

  predicate IsAscii(s: string) {
    forall i :: 0 <= i < |s| ==> s[i] < 128 as char
  }

  function Ascii(s: string): (bytes: seq<Byte>)
    requires IsAscii(s)
    ensures |bytes| == |s|
  {
    seq(|s|, i requires 0 <= i < |s| => s[i] as int)
  }

  // What can be hashed: UUIDs, ASCII currency codes and i64 amounts.
  predicate Hashable(f: Fingerprint) {
    match f
    case OfAccount(currency, balance) => IsAscii(currency) && InI64(balance)
    case OfTransfer(source, destination, currency, amount) =>
      IsUuid(source) && IsUuid(destination) && IsAscii(currency) && InI64(amount)
    case OfReversal(original) => IsUuid(original)
  }

  function Preimage(f: Fingerprint): seq<Byte>
    requires Hashable(f)
  {
    match f
    case OfAccount(currency, balance) =>
      Ascii("account_creation:v1:") + Ascii(currency) + Ascii(":") + I64Bytes(balance)
    case OfTransfer(source, destination, currency, amount) =>
      Ascii("transfer:v1:") + UuidBytes(source) + UuidBytes(destination) + Ascii(currency) + I64Bytes(amount)
    case OfReversal(original) => Ascii("reversal:v1:") + UuidBytes(original)
  }

  /* -------------------- the hashing code -------------------- */

  // A digest under construction; it holds the bytes fed to it so far.
  class Hasher {
    var data: seq<Byte>

    constructor ()
      ensures data == []
    {
      data := [];
    }

    method Update(bytes: seq<Byte>)
      modifies this
      ensures data == old(data) + bytes
    {
      data := data + bytes;
    }
  }

  method AccountCreationFingerprint(currency: string, balance: int) returns (bytes: seq<Byte>)
    requires IsAscii(currency) && InI64(balance)
    ensures bytes == Preimage(OfAccount(currency, balance))
  {
    var hasher := new Hasher();
    hasher.Update(Ascii("account_creation:v1:"));
    hasher.Update(Ascii(currency));
    hasher.Update(Ascii(":"));
    hasher.Update(I64Bytes(balance));
    bytes := hasher.data;
  }

  method TransferFingerprint(source: Id, destination: Id, currency: string, amount: int) returns (bytes: seq<Byte>)
    requires IsUuid(source) && IsUuid(destination) && IsAscii(currency) && InI64(amount)
    ensures bytes == Preimage(OfTransfer(source, destination, currency, amount))
  {
    var hasher := new Hasher();
    hasher.Update(Ascii("transfer:v1:"));
    hasher.Update(UuidBytes(source));
    hasher.Update(UuidBytes(destination));
    hasher.Update(Ascii(currency));
    hasher.Update(I64Bytes(amount));
    bytes := hasher.data;
  }

  method ReversalFingerprint(original: Id) returns (bytes: seq<Byte>)
    requires IsUuid(original)
    ensures bytes == Preimage(OfReversal(original))
  {
    var hasher := new Hasher();
    hasher.Update(Ascii("reversal:v1:"));
    hasher.Update(UuidBytes(original));
    bytes := hasher.data;
  }

  /* -------------------- injectivity -------------------- */

  lemma Widths()
    ensures Pow256(8) == 0x1_0000_0000_0000_0000
    ensures Pow256(16) == 0x1_0000_0000_0000_0000_0000_0000_0000_0000
  {
    assert Pow256(4) == 0x1_0000_0000;
    assert Pow256(8) == 0x1_0000_0000_0000_0000;
    assert Pow256(12) == 0x1_0000_0000_0000_0000_0000_0000;
  }

  lemma I64BytesInjective(m: int, n: int)
    requires InI64(m) && InI64(n) && I64Bytes(m) == I64Bytes(n)
    ensures m == n
  {
    Widths();
    BigEndianRoundTrip(TwosComplement(m), 8);
    BigEndianRoundTrip(TwosComplement(n), 8);
  }

  lemma UuidBytesInjective(m: Id, n: Id)
    requires IsUuid(m) && IsUuid(n) && UuidBytes(m) == UuidBytes(n)
    ensures m == n
  {
    Widths();
    BigEndianRoundTrip(m, 16);
    BigEndianRoundTrip(n, 16);
  }

  lemma AsciiInjective(s: string, t: string)
    requires IsAscii(s) && IsAscii(t) && Ascii(s) == Ascii(t)
    ensures s == t
  {
    forall i | 0 <= i < |s| ensures s[i] == t[i] {
      assert Ascii(s)[i] == Ascii(t)[i];
    }
  }

  // A fixed-width suffix can be told from what precedes it.
  lemma SplitEnd(a: seq<Byte>, x: seq<Byte>, b: seq<Byte>, y: seq<Byte>)
    requires a + x == b + y && |x| == |y|
    ensures a == b && x == y
  {
    assert a == (a + x)[..|a|] == (b + y)[..|b|] == b;
    assert x == (a + x)[|a|..] == (b + y)[|b|..] == y;
  }

  lemma SplitStart(a: seq<Byte>, x: seq<Byte>, b: seq<Byte>, y: seq<Byte>)
    requires a + x == b + y && |a| == |b|
    ensures a == b && x == y
  {
    assert a == (a + x)[..|a|] == (b + y)[..|b|] == b;
    assert x == (a + x)[|a|..] == (b + y)[|b|..] == y;
  }

  lemma AccountPreimages(c: string, m: int, d: string, n: int)
    requires Hashable(OfAccount(c, m)) && Hashable(OfAccount(d, n))
    requires Preimage(OfAccount(c, m)) == Preimage(OfAccount(d, n))
    ensures c == d && m == n
  {
    var tag, colon := Ascii("account_creation:v1:"), Ascii(":");
    SplitEnd(tag + Ascii(c) + colon, I64Bytes(m), tag + Ascii(d) + colon, I64Bytes(n));
    SplitEnd(tag + Ascii(c), colon, tag + Ascii(d), colon);
    SplitStart(tag, Ascii(c), tag, Ascii(d));
    AsciiInjective(c, d);
    I64BytesInjective(m, n);
  }

  lemma TransferPreimages(s: Id, d: Id, c: string, m: int, s': Id, d': Id, c': string, m': int)
    requires Hashable(OfTransfer(s, d, c, m)) && Hashable(OfTransfer(s', d', c', m'))
    requires Preimage(OfTransfer(s, d, c, m)) == Preimage(OfTransfer(s', d', c', m'))
    ensures s == s' && d == d' && c == c' && m == m'
  {
    var tag := Ascii("transfer:v1:");
    SplitEnd(tag + UuidBytes(s) + UuidBytes(d) + Ascii(c), I64Bytes(m),
             tag + UuidBytes(s') + UuidBytes(d') + Ascii(c'), I64Bytes(m'));
    SplitStart(tag + UuidBytes(s) + UuidBytes(d), Ascii(c), tag + UuidBytes(s') + UuidBytes(d'), Ascii(c'));
    SplitStart(tag + UuidBytes(s), UuidBytes(d), tag + UuidBytes(s'), UuidBytes(d'));
    SplitStart(tag, UuidBytes(s), tag, UuidBytes(s'));
    UuidBytesInjective(s, s');
    UuidBytesInjective(d, d');
    AsciiInjective(c, c');
    I64BytesInjective(m, m');
  }

  function Tag(f: Fingerprint): char {
    match f
    case OfAccount(_, _) => 'a'
    case OfTransfer(_, _, _, _) => 't'
    case OfReversal(_) => 'r'
  }

  lemma StartsWithTag(f: Fingerprint)
    requires Hashable(f)
    ensures Preimage(f) != [] && Preimage(f)[0] == Tag(f) as int
  {
    assert "account_creation:v1:"[0] == 'a' && "transfer:v1:"[0] == 't' && "reversal:v1:"[0] == 'r';
  }

  // Different business inputs, of one operation or of two, never hash the same bytes.
  lemma PreimageInjective(f: Fingerprint, g: Fingerprint)
    requires Hashable(f) && Hashable(g) && Preimage(f) == Preimage(g)
    ensures f == g
  {
    StartsWithTag(f);
    StartsWithTag(g);
    match f {
      case OfAccount(c, m) => AccountPreimages(c, m, g.currency, g.balance);
      case OfTransfer(s, d, c, m) => TransferPreimages(s, d, c, m, g.source, g.destination, g.currency, g.amount);
      case OfReversal(o) =>
        SplitStart(Ascii("reversal:v1:"), UuidBytes(o), Ascii("reversal:v1:"), UuidBytes(g.original));
        UuidBytesInjective(o, g.original);
    }
  }

  // Every UUID of the request and every currency of the accounts can be hashed.
  predicate SaneInputs(accounts: map<Id, Account>, call: Call) {
    && (forall a :: a in accounts ==> IsAscii(accounts[a].currency))
    && match call
       case CreateAccount(_, _) => true
       case CreateTransfer(source, destination, _) => IsUuid(source) && IsUuid(destination)
       case ReverseTransfer(original) => IsUuid(original)
  }

  // What two calls have in common when they ask for the same thing: the account, its currency and
  // exact opening amount; both accounts and the exact amount, in the source's minor units; or the
  // original transfer. Of an account only its currency and scale matter.
  ghost predicate SameBusiness(accounts: map<Id, Account>, call: Call, other: Call) {
    match (call, other)
    case (CreateAccount(c1, b1), CreateAccount(c2, b2)) =>
      var (k1, k2) := (Money.CurrencyOf(c1), Money.CurrencyOf(c2));
      k1.Some? && k1 == k2 &&
      Money.ParseInitialBalance(b1, k1.value.scale) == Money.ParseInitialBalance(b2, k1.value.scale)
    case (CreateTransfer(s1, d1, a1), CreateTransfer(s2, d2, a2)) =>
      s1 == s2 && d1 == d2 && s1 in accounts &&
      Money.ParseMinorUnits(a1, accounts[s1].scale) == Money.ParseMinorUnits(a2, accounts[s1].scale)
    case (ReverseTransfer(o1), ReverseTransfer(o2)) => o1 == o2
    case _ => false
  }

  lemma SupportedIsAscii(input: string)
    ensures Money.CurrencyOf(input).Some? ==> IsAscii(Money.CurrencyOf(input).value.code)
  {
    Money.FoundIsListed(Money.ToAsciiUppercase(Money.Trim(input)), Money.CURRENCIES);
  }

  lemma AccountIsHashable(req: Request, currency: string, balance: string)
    requires ClassifyAccount(req, currency, balance).Ok?
    ensures Hashable(ClassifyAccount(req, currency, balance).value.fingerprint)
  {
    SupportedIsAscii(currency);
  }

  lemma ClassifiedIsHashable(accounts: map<Id, Account>, req: Request)
    requires SaneInputs(accounts, req.call) && Classify(accounts, req).Ok?
    ensures Hashable(Classify(accounts, req).value.fingerprint)
  {
    match req.call {
      case CreateAccount(currency, balance) => AccountIsHashable(req, currency, balance);
      case _ =>
    }
  }

  lemma {:induction false} CodesAreUnique(code: string, currencies: seq<Money.Currency>)
    ensures var found := Money.FindCurrency(code, currencies); found.Some? ==> found.value.code == code
  {
    if currencies != [] && currencies[0].code != code {
      CodesAreUnique(code, currencies[1..]);
    }
  }

  // A currency's code tells its scale.
  lemma CodeTellsCurrency(a: string, b: string)
    requires Money.CurrencyOf(a).Some? && Money.CurrencyOf(b).Some?
    requires Money.CurrencyOf(a).value.code == Money.CurrencyOf(b).value.code
    ensures Money.CurrencyOf(a) == Money.CurrencyOf(b)
  {
    CodesAreUnique(Money.ToAsciiUppercase(Money.Trim(a)), Money.CURRENCIES);
    CodesAreUnique(Money.ToAsciiUppercase(Money.Trim(b)), Money.CURRENCIES);
  }

  lemma SameAccounts(req: Request, other: Request)
    requires req.call.CreateAccount? && other.call.CreateAccount?
    requires ClassifyAccount(req, req.call.currency, req.call.initialBalance).Ok?
    requires ClassifyAccount(other, other.call.currency, other.call.initialBalance).Ok?
    ensures ClassifyAccount(req, req.call.currency, req.call.initialBalance).value.fingerprint ==
            ClassifyAccount(other, other.call.currency, other.call.initialBalance).value.fingerprint
            <==> SameBusiness(map[], req.call, other.call)
  {
    if Money.CurrencyOf(req.call.currency).value.code == Money.CurrencyOf(other.call.currency).value.code {
      CodeTellsCurrency(req.call.currency, other.call.currency);
    }
  }

  lemma SameFingerprints(db: Db, later: Db, req: Request, other: Request)
    requires Grows(db, later) && Classify(db.accounts, req).Ok? && Classify(later.accounts, other).Ok?
    ensures Classify(db.accounts, req).value.fingerprint == Classify(later.accounts, other).value.fingerprint
            <==> SameBusiness(db.accounts, req.call, other.call)
  {
    if req.call.CreateAccount? && other.call.CreateAccount? {
      SameAccounts(req, other);
    }
  }

  // Two requests replay each other, or conflict, by what they ask for and nothing else, however far
  // apart they are sent: the bytes agree exactly when the business inputs do.
  lemma RequestsCompareByBytes(db: Db, later: Db, req: Request, other: Request)
    requires Grows(db, later) && Classify(db.accounts, req).Ok? && Classify(later.accounts, other).Ok?
    requires SaneInputs(db.accounts, req.call) && SaneInputs(later.accounts, other.call)
    ensures var f, g := Classify(db.accounts, req).value.fingerprint, Classify(later.accounts, other).value.fingerprint;
            Hashable(f) && Hashable(g) && (Preimage(f) == Preimage(g) <==> SameBusiness(db.accounts, req.call, other.call))
  {
    var f, g := Classify(db.accounts, req).value.fingerprint, Classify(later.accounts, other).value.fingerprint;
    ClassifiedIsHashable(db.accounts, req);
    ClassifiedIsHashable(later.accounts, other);
    SameFingerprints(db, later, req, other);
    if Preimage(f) == Preimage(g) {
      PreimageInjective(f, g);
    }
  }
}
