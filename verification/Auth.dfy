/** The three authentication challenges a client agrees to sign. */
module Auth {
  import opened Common

  // ---- text operations ----

  function StripPrefix(s: string, p: string): Option<string> {
    if p <= s then Some(s[|p|..]) else None
  }

  function StripSuffix(s: string, p: string): Option<string> {
    if |p| <= |s| && s[|s| - |p|..] == p then Some(s[..|s| - |p|]) else None
  }

  predicate OccursAt(s: string, sep: string, i: nat) {
    i + |sep| <= |s| && s[i..i + |sep|] == sep
  }

  /** The first position at or after `i` where `sep` occurs. */
  function Find(s: string, sep: string, i: nat): (r: Option<nat>)
    ensures r.Some? ==> OccursAt(s, sep, r.value)
    decreases |s| - i
  {
    if i + |sep| > |s| then None else if OccursAt(s, sep, i) then Some(i) else Find(s, sep, i + 1)
  }

  /** `split_once` */
  function SplitOnce(s: string, sep: string): Option<(string, string)> {
    var at := Find(s, sep, 0);
    if at.None? then None else Some((s[..at.value], s[at.value + |sep|..]))
  }

  lemma StripPrefixExactly(s: string, p: string, rest: string)
    ensures StripPrefix(s, p) == Some(rest) <==> s == p + rest
  {}

  lemma StripSuffixExactly(s: string, p: string, rest: string)
    ensures StripSuffix(s, p) == Some(rest) <==> s == rest + p
  {}

  /** `Find` finds the first occurrence. */
  lemma {:induction false} FindAt(s: string, sep: string, i: nat, at: nat)
    requires i <= at && OccursAt(s, sep, at) && forall j :: i <= j < at ==> !OccursAt(s, sep, j)
    ensures Find(s, sep, i) == Some(at)
    decreases at - i
  {
    if i < at {
      assert !OccursAt(s, sep, i);
      FindAt(s, sep, i + 1, at);
    }
  }

  /** Splitting at a separator whose first character is not in the head gives back both halves. */
  lemma SplitJoined(head: string, sep: string, tail: string)
    requires sep != [] && sep[0] !in head
    ensures SplitOnce(head + sep + tail, sep) == Some((head, tail))
  {
    var s := head + sep + tail;
    assert OccursAt(s, sep, |head|);
    forall j | 0 <= j < |head|
      ensures !OccursAt(s, sep, j)
    {
      assert s[j] == head[j];
    }
    FindAt(s, sep, 0, |head|);
    assert s[..|head|] == head && s[|head| + |sep|..] == tail;
  }

  lemma SplitMeans(s: string, sep: string, head: string, tail: string)
    requires SplitOnce(s, sep) == Some((head, tail))
    ensures s == head + sep + tail
  {}

  // ---- timestamps ----

  predicate Digit(c: char) {
    '0' <= c <= '9'
  }

  function Value(c: char): nat
    requires Digit(c)
  {
    c as int - '0' as int
  }

  /** The calendar: days of a month, by the proleptic Gregorian leap rule. */
  function DaysIn(year: nat, month: nat): nat {
    match month
    case 4 => 30
    case 6 => 30
    case 9 => 30
    case 11 => 30
    case 2 => if year % 4 == 0 && (year % 100 != 0 || year % 400 == 0) then 29 else 28
    case 1 => 31
    case 3 => 31
    case 5 => 31
    case 7 => 31
    case 8 => 31
    case 10 => 31
    case 12 => 31
    case _ => 0
  }

  predicate Leap(year: nat) {
    year % 400 == 0 || (year % 4 == 0 && year % 100 != 0)
  }

  /** Months alternate between 31 and 30 days, starting over in August; February has 28, or 29 in a leap year. */
  lemma MonthLengths(year: nat, month: nat)
    ensures DaysIn(year, month)
         == if !(1 <= month <= 12) then 0
            else if month == 2 then (if Leap(year) then 29 else 28)
            else if (month + month / 8) % 2 == 1 then 31
            else 30
  {
    assert year % 400 == 0 ==> year % 100 == 0 && year % 4 == 0;
  }

  predicate Shaped(s: string) {
    && |s| == 20
    && forall i :: 0 <= i < 20 ==>
         if i == 4 || i == 7 then s[i] == '-'
         else if i == 10 then s[i] == 'T'
         else if i == 13 || i == 16 then s[i] == ':'
         else if i == 19 then s[i] == 'Z'
         else Digit(s[i])
  }

  /** Two digits, in `u8` arithmetic: nothing wraps. */
  function Pair(s: string, i: nat): (n: u8)
    requires i + 1 < |s| && Digit(s[i]) && Digit(s[i + 1])
    ensures n < 100
  {
    Value(s[i]) * 10 + Value(s[i + 1])
  }

  /** `is_utc_seconds` */
  predicate IsUtcSeconds(s: string) {
    && Shaped(s)
    && var year: u16 := Pair(s, 0) * 100 + Pair(s, 2);
       var days := DaysIn(year, Pair(s, 5));
       1 <= Pair(s, 8) <= days && Pair(s, 11) < 24 && Pair(s, 14) < 60 && Pair(s, 17) < 60
  }

  /** A leap second, which section 5.6 of RFC 3339 allows, is refused. */
  lemma LeapSecondRefused()
    ensures Shaped("1990-12-31T23:59:60Z") && !IsUtcSeconds("1990-12-31T23:59:60Z")
  {
    assert Pair("1990-12-31T23:59:60Z", 17) == 60;
  }

  /** The fixed UTC-seconds layout. */
  function Timestamp(century: string, year: string, month: string, day: string, hour: string, minute: string,
        second: string): string
  {
    century + year + "-" + month + "-" + day + "T" + hour + ":" + minute + ":" + second + "Z"
  }

  datatype Moment = Moment(year: nat, month: nat, day: nat, hour: nat, minute: nat, second: nat) {
    predicate Valid() {
      && year < 10000 && 1 <= month <= 12 && 1 <= day <= DaysIn(year, month)
      && hour < 24 && minute < 60 && second < 60
    }

    function Print(): string
      requires Valid()
    {
      Timestamp(Two(year / 100), Two(year % 100), Two(month), Two(day), Two(hour), Two(minute), Two(second))
    }
  }

  function DigitOf(n: nat): (c: char)
    requires n < 10
    ensures Digit(c) && Value(c) == n
  {
    '0' + n as char
  }

  function Two(n: nat): (s: string)
    requires n < 100
    ensures |s| == 2 && Digit(s[0]) && Digit(s[1]) && Value(s[0]) * 10 + Value(s[1]) == n
  {
    [DigitOf(n / 10), DigitOf(n % 10)]
  }

  predicate TwoDigits(s: string, i: nat) {
    i + 1 < |s| && Digit(s[i]) && Digit(s[i + 1])
  }

  /** A shaped text is its pairs of digits and its punctuation. */
  lemma ShapedParts(s: string)
    requires Shaped(s)
    ensures TwoDigits(s, 0) && TwoDigits(s, 2) && TwoDigits(s, 5) && TwoDigits(s, 8) && TwoDigits(s, 11)
         && TwoDigits(s, 14) && TwoDigits(s, 17)
    ensures s == Timestamp(s[0..2], s[2..4], s[5..7], s[8..10], s[11..13], s[14..16], s[17..19])
  {}

  lemma TwoPair(s: string, i: nat)
    requires TwoDigits(s, i)
    ensures Two(Pair(s, i)) == s[i..i + 2]
  {
    var n := Pair(s, i);
    assert n / 10 == Value(s[i]) && n % 10 == Value(s[i + 1]);
  }

  /** A printed moment is shaped, and its pairs of digits are its parts. */
  lemma PrintPairs(m: Moment)
    requires m.Valid()
    ensures var s := m.Print();
            && Shaped(s) && Pair(s, 0) == m.year / 100 && Pair(s, 2) == m.year % 100 && Pair(s, 5) == m.month
            && Pair(s, 8) == m.day && Pair(s, 11) == m.hour && Pair(s, 14) == m.minute && Pair(s, 17) == m.second
  {}

  ghost predicate PrintsAs(m: Moment, s: string) {
    m.Valid() && m.Print() == s
  }

  function Parsed(s: string): Moment
    requires Shaped(s)
  {
    Moment(Pair(s, 0) * 100 + Pair(s, 2), Pair(s, 5), Pair(s, 8), Pair(s, 11), Pair(s, 14), Pair(s, 17))
  }

  lemma CenturySplit(a: nat, b: nat)
    requires b < 100
    ensures (a * 100 + b) / 100 == a && (a * 100 + b) % 100 == b
  {}

  lemma ParsedValid(s: string)
    requires IsUtcSeconds(s)
    ensures Parsed(s).Valid()
  {}

  lemma PairsPrint(s: string)
    requires Shaped(s)
    ensures s == Timestamp(Two(Pair(s, 0)), Two(Pair(s, 2)), Two(Pair(s, 5)), Two(Pair(s, 8)), Two(Pair(s, 11)),
                         Two(Pair(s, 14)), Two(Pair(s, 17)))
  {
    ShapedParts(s);
    TwoPair(s, 0);
    TwoPair(s, 2);
    TwoPair(s, 5);
    TwoPair(s, 8);
    TwoPair(s, 11);
    TwoPair(s, 14);
    TwoPair(s, 17);
  }

  lemma PrintOfParsed(s: string, m: Moment)
    requires Shaped(s) && m == Parsed(s) && m.Valid()
    ensures m.Print() == Timestamp(Two(Pair(s, 0)), Two(Pair(s, 2)), Two(Pair(s, 5)), Two(Pair(s, 8)), Two(Pair(s, 11)),
                                   Two(Pair(s, 14)), Two(Pair(s, 17)))
  {
    CenturySplit(Pair(s, 0), Pair(s, 2));
  }

  lemma ParsedPrints(s: string)
    requires IsUtcSeconds(s)
    ensures PrintsAs(Parsed(s), s)
  {
    ParsedValid(s);
    PairsPrint(s);
    PrintOfParsed(s, Parsed(s));
  }

  /** The accepted timestamps are exactly the printed valid moments, each of exactly one moment. */
  lemma UtcSecondsExactly(s: string)
    ensures IsUtcSeconds(s) <==> exists m :: PrintsAs(m, s)
    ensures forall m, m' :: PrintsAs(m, s) && PrintsAs(m', s) ==> m == m'
  {
    if IsUtcSeconds(s) {
      ParsedPrints(s);
    }
    forall m | PrintsAs(m, s)
      ensures IsUtcSeconds(s) && m == Parsed(s)
    {
      PrintPairs(m);
    }
  }

  // ---- the validators ----

  const PREFIX: string := "Acta RFQ Authentication\n\nSign this message to authenticate your wallet.\n\n"
  const NONCE: string := "Nonce: "
  const ISSUED: string := "\nIssued At: "
  const WALLET: string := "Wallet: "
  const VAULT: string := "\nVault: "

  predicate HexDigit(c: char) {
    Digit(c) || 'a' <= c <= 'f'
  }

  predicate ValidNonce(nonce: string) {
    |nonce| == 64 && forall i :: 0 <= i < |nonce| ==> HexDigit(nonce[i])
  }

  /** `valid_nonce_and_time` */
  predicate ValidNonceAndTime(body: string) {
    var rest := StripPrefix(body, NONCE);
    && rest.Some?
    && var split := SplitOnce(rest.value, ISSUED);
       && split.Some? && ValidNonce(split.value.0)
       && var time := StripSuffix(split.value.1, "\n");
          time.Some? && IsUtcSeconds(time.value)
  }

  /** Base58, which is foreign here: how addresses print, and which texts decode to 32 bytes. */
  datatype Base58 = Base58(encode: Pubkey -> string, decodes: string -> bool)

  predicate Letter(c: char) {
    '1' <= c <= '9' || ('A' <= c <= 'Z' && c != 'I' && c != 'O') || ('a' <= c <= 'z' && c != 'l')
  }

  predicate Letters(s: string) {
    forall i :: 0 <= i < |s| ==> Letter(s[i])
  }

  /** What is relied on: only alphabet letters print and decode, and no two addresses print alike. */
  ghost predicate Sound(k: Base58) {
    && (forall a :: Letters(k.encode(a)))
    && (forall a, b :: k.encode(a) == k.encode(b) ==> a == b)
    && (forall w :: k.decodes(w) ==> Letters(w))
  }

  function Then(s: Option<string>, p: string): Option<string> {
    if s.None? then None else StripPrefix(s.value, p)
  }

  function ThenSuffix(s: Option<string>, p: string): Option<string> {
    if s.None? then None else StripSuffix(s.value, p)
  }

  /** `validate_maker_auth_challenge` */
  predicate ValidMaker(challenge: string) {
    var body := StripPrefix(challenge, PREFIX);
    body.Some? && ValidNonceAndTime(body.value)
  }

  /** `validate_wallet_auth_challenge` */
  predicate ValidWallet(k: Base58, challenge: string, wallet: string) {
    var body := Then(Then(Then(StripPrefix(challenge, PREFIX), WALLET), wallet), "\n");
    k.decodes(wallet) && body.Some? && ValidNonceAndTime(body.value)
  }

  /** `validate_vault_auth_challenge` */
  predicate ValidVault(k: Base58, challenge: string, operator: Pubkey, vault: Pubkey) {
    var rest := Then(Then(Then(StripPrefix(challenge, PREFIX), WALLET), k.encode(operator)), "\n");
    var body := ThenSuffix(ThenSuffix(rest, k.encode(vault)), VAULT);
    body.Some? && ValidNonceAndTime(body.value)
  }

  // ---- the printed forms ----

  function Body(nonce: string, time: string): string {
    NONCE + (nonce + ISSUED + (time + "\n"))
  }

  function WalletLine(wallet: string, rest: string): string {
    PREFIX + (WALLET + (wallet + ("\n" + rest)))
  }

  ghost predicate IsBody(body: string, nonce: string, m: Moment) {
    ValidNonce(nonce) && m.Valid() && body == Body(nonce, m.Print())
  }

  type Nibble = x: int | 0 <= x < 16

  function HexChar(d: Nibble): char {
    if d < 10 then '0' + d as char else 'a' + (d - 10) as char
  }

  /** Lower-case hexadecimal. */
  function Hex(digits: seq<Nibble>): (s: string)
    ensures |s| == |digits|
  {
    seq(|digits|, i requires 0 <= i < |digits| => HexChar(digits[i]))
  }

  function NibbleOf(c: char): Nibble
    requires HexDigit(c)
  {
    if Digit(c) then c as int - '0' as int else c as int - 'a' as int + 10
  }

  ghost predicate PrintsNonce(digits: seq<Nibble>, nonce: string) {
    |digits| == 64 && nonce == Hex(digits)
  }

  /** The accepted nonces are exactly 32 bytes printed in lower-case hexadecimal. */
  lemma NonceExactly(nonce: string)
    ensures ValidNonce(nonce) <==> exists digits :: PrintsNonce(digits, nonce)
  {
    if ValidNonce(nonce) {
      var digits := seq<Nibble>(64, i requires 0 <= i < 64 => NibbleOf(nonce[i]));
      assert Hex(digits) == nonce;
      assert PrintsNonce(digits, nonce);
    }
  }

  /** The texts around the variable parts, written out. */
  lemma PrintedTexts(nonce: string, time: string, wallet: string, rest: string)
    ensures Body(nonce, time) == "Nonce: " + nonce + "\nIssued At: " + time + "\n"
    ensures PREFIX + rest == "Acta RFQ Authentication\n\nSign this message to authenticate your wallet.\n\n" + rest
    ensures WalletLine(wallet, rest) == PREFIX + "Wallet: " + wallet + "\n" + rest
    ensures VAULT == "\nVault: "
  {}

  lemma NonceHasNoNewline(nonce: string)
    requires ValidNonce(nonce)
    ensures '\n' !in nonce
  {}

  /** A nonce-and-time body is accepted exactly when it is the printed form of a nonce and a moment. */
  lemma BodyExactly(body: string)
    ensures ValidNonceAndTime(body) <==> exists nonce, m :: IsBody(body, nonce, m)
  {
    if ValidNonceAndTime(body) {
      var rest := StripPrefix(body, NONCE).value;
      var split := SplitOnce(rest, ISSUED).value;
      var time := StripSuffix(split.1, "\n").value;
      StripPrefixExactly(body, NONCE, rest);
      SplitMeans(rest, ISSUED, split.0, split.1);
      StripSuffixExactly(split.1, "\n", time);
      ParsedPrints(time);
      assert IsBody(body, split.0, Parsed(time));
    }
    forall nonce, m | IsBody(body, nonce, m)
      ensures ValidNonceAndTime(body)
    {
      BodyAccepted(nonce, m);
    }
  }

  lemma TimedBodyAccepted(nonce: string, time: string)
    requires ValidNonce(nonce) && IsUtcSeconds(time)
    ensures ValidNonceAndTime(Body(nonce, time))
  {
    StripPrefixExactly(Body(nonce, time), NONCE, nonce + ISSUED + (time + "\n"));
    NonceHasNoNewline(nonce);
    SplitJoined(nonce, ISSUED, time + "\n");
    StripSuffixExactly(time + "\n", "\n", time);
  }

  lemma BodyAccepted(nonce: string, m: Moment)
    requires ValidNonce(nonce) && m.Valid()
    ensures ValidNonceAndTime(Body(nonce, m.Print()))
  {
    PrintPairs(m);
    TimedBodyAccepted(nonce, m.Print());
  }

  lemma BodyPrinted(body: string) returns (nonce: string, m: Moment)
    requires ValidNonceAndTime(body)
    ensures IsBody(body, nonce, m)
  {
    BodyExactly(body);
    nonce, m :| IsBody(body, nonce, m);
  }

  ghost predicate IsMaker(challenge: string, nonce: string, m: Moment) {
    ValidNonce(nonce) && m.Valid() && challenge == PREFIX + Body(nonce, m.Print())
  }

  ghost predicate IsWallet(challenge: string, wallet: string, nonce: string, m: Moment) {
    ValidNonce(nonce) && m.Valid() && challenge == WalletLine(wallet, Body(nonce, m.Print()))
  }

  ghost predicate IsVault(challenge: string, operator: string, vault: string, nonce: string, m: Moment) {
    ValidNonce(nonce) && m.Valid() && challenge == WalletLine(operator, Body(nonce, m.Print()) + VAULT + vault)
  }

  /** The maker validator accepts exactly the printed challenges of valid nonces and moments. */
  lemma MakerExactly(challenge: string)
    ensures ValidMaker(challenge) <==> exists nonce, m :: IsMaker(challenge, nonce, m)
  {
    if ValidMaker(challenge) {
      var body := StripPrefix(challenge, PREFIX).value;
      StripPrefixExactly(challenge, PREFIX, body);
      var nonce, m := BodyPrinted(body);
      assert IsMaker(challenge, nonce, m);
    }
    forall nonce, m | IsMaker(challenge, nonce, m)
      ensures ValidMaker(challenge)
    {
      StripPrefixExactly(challenge, PREFIX, Body(nonce, m.Print()));
      BodyAccepted(nonce, m);
    }
  }

  /** Stripping the wallet line leaves `rest` exactly when the challenge is that line before `rest`. */
  lemma WalletLineExactly(challenge: string, wallet: string, rest: string)
    ensures Then(Then(Then(StripPrefix(challenge, PREFIX), WALLET), wallet), "\n") == Some(rest)
       <==> challenge == WalletLine(wallet, rest)
  {
    StripPrefixExactly(challenge, PREFIX, WALLET + (wallet + ("\n" + rest)));
    StripPrefixExactly(WALLET + (wallet + ("\n" + rest)), WALLET, wallet + ("\n" + rest));
    StripPrefixExactly(wallet + ("\n" + rest), wallet, "\n" + rest);
    StripPrefixExactly("\n" + rest, "\n", rest);
    var a := StripPrefix(challenge, PREFIX);
    if Then(Then(Then(a, WALLET), wallet), "\n") == Some(rest) {
      var b := StripPrefix(a.value, WALLET);
      var c := StripPrefix(b.value, wallet);
      StripPrefixExactly(challenge, PREFIX, a.value);
      StripPrefixExactly(a.value, WALLET, b.value);
      StripPrefixExactly(b.value, wallet, c.value);
      StripPrefixExactly(c.value, "\n", rest);
    }
  }

  /** The wallet validator accepts exactly the printed challenges of a decodable wallet. */
  lemma WalletExactly(k: Base58, challenge: string, wallet: string)
    ensures ValidWallet(k, challenge, wallet)
        <==> k.decodes(wallet) && exists nonce, m :: IsWallet(challenge, wallet, nonce, m)
  {
    if ValidWallet(k, challenge, wallet) {
      var body := Then(Then(Then(StripPrefix(challenge, PREFIX), WALLET), wallet), "\n").value;
      WalletLineExactly(challenge, wallet, body);
      var nonce, m := BodyPrinted(body);
      assert IsWallet(challenge, wallet, nonce, m);
    }
    forall nonce, m | k.decodes(wallet) && IsWallet(challenge, wallet, nonce, m)
      ensures ValidWallet(k, challenge, wallet)
    {
      WalletLineExactly(challenge, wallet, Body(nonce, m.Print()));
      BodyAccepted(nonce, m);
    }
  }

  lemma VaultLineExactly(rest: string, vault: string, body: string)
    ensures ThenSuffix(ThenSuffix(Some(rest), vault), VAULT) == Some(body) <==> rest == body + VAULT + vault
  {}

  /** The vault validator accepts exactly the printed challenges of its operator and vault. */
  lemma VaultExactly(k: Base58, challenge: string, operator: Pubkey, vault: Pubkey)
    ensures ValidVault(k, challenge, operator, vault)
       <==> exists nonce, m :: IsVault(challenge, k.encode(operator), k.encode(vault), nonce, m)
  {
    var wallet, tail := k.encode(operator), k.encode(vault);
    if ValidVault(k, challenge, operator, vault) {
      var rest := Then(Then(Then(StripPrefix(challenge, PREFIX), WALLET), wallet), "\n").value;
      var body := ThenSuffix(ThenSuffix(Some(rest), tail), VAULT).value;
      WalletLineExactly(challenge, wallet, rest);
      VaultLineExactly(rest, tail, body);
      var nonce, m := BodyPrinted(body);
      assert IsVault(challenge, wallet, tail, nonce, m);
    }
    forall nonce, m | IsVault(challenge, wallet, tail, nonce, m)
      ensures ValidVault(k, challenge, operator, vault)
    {
      var body := Body(nonce, m.Print());
      WalletLineExactly(challenge, wallet, body + VAULT + tail);
      VaultLineExactly(body + VAULT + tail, tail, body);
      BodyAccepted(nonce, m);
    }
  }

  // ---- one challenge, one meaning ----

  lemma SameAfter(p: string, a: string, b: string)
    requires p + a == p + b
    ensures a == b
  {
    assert (p + a)[|p|..] == a && (p + b)[|p|..] == b;
  }

  lemma LineNotLonger(a: string, b: string, x: string, y: string)
    requires '\n' !in b && a + ("\n" + x) == b + ("\n" + y)
    ensures |b| <= |a|
  {
    assert (a + ("\n" + x))[|a|] == '\n';
  }

  /** Two lines without newlines that start the same text are the same line. */
  lemma LinesUnique(a: string, b: string, x: string, y: string)
    requires '\n' !in a && '\n' !in b && a + ("\n" + x) == b + ("\n" + y)
    ensures a == b && x == y
  {
    LineNotLonger(a, b, x, y);
    LineNotLonger(b, a, y, x);
    var s, t := a + ("\n" + x), b + ("\n" + y);
    assert a == s[..|a|] && b == t[..|b|];
    assert x == s[|a| + 1..] && y == t[|b| + 1..];
  }

  lemma LettersHaveNoNewline(s: string)
    requires Letters(s)
    ensures '\n' !in s
  {}

  lemma WalletLineUnique(a: string, x: string, b: string, y: string)
    requires Letters(a) && Letters(b) && WalletLine(a, x) == WalletLine(b, y)
    ensures a == b && x == y
  {
    SameAfter(PREFIX, WALLET + (a + ("\n" + x)), WALLET + (b + ("\n" + y)));
    SameAfter(WALLET, a + ("\n" + x), b + ("\n" + y));
    LettersHaveNoNewline(a);
    LettersHaveNoNewline(b);
    LinesUnique(a, b, x, y);
  }

  lemma BodyShape(nonce: string, m: Moment)
    requires ValidNonce(nonce) && m.Valid()
    ensures var body := Body(nonce, m.Print()); |body| == 104 && body[0] == 'N' && body[103] == '\n'
  {}

  /** No challenge is both a maker's and a wallet's or vault's. */
  lemma MakerApart(k: Base58, challenge: string, wallet: string, operator: Pubkey, vault: Pubkey)
    requires ValidMaker(challenge)
    ensures !ValidWallet(k, challenge, wallet) && !ValidVault(k, challenge, operator, vault)
  {
    MakerExactly(challenge);
    var nonce, m :| IsMaker(challenge, nonce, m);
    BodyShape(nonce, m);
    assert challenge[|PREFIX|] == 'N';
    WalletExactly(k, challenge, wallet);
    VaultExactly(k, challenge, operator, vault);
    forall w, rest
      ensures challenge != WalletLine(w, rest)
    {
      assert WalletLine(w, rest)[|PREFIX|] == 'W';
    }
  }

  /** A wallet challenge is valid for at most one wallet. */
  lemma WalletUnique(k: Base58, challenge: string, w: string, w': string)
    requires Sound(k) && ValidWallet(k, challenge, w) && ValidWallet(k, challenge, w')
    ensures w == w'
  {
    WalletExactly(k, challenge, w);
    WalletExactly(k, challenge, w');
    var n, m :| IsWallet(challenge, w, n, m);
    var n', m' :| IsWallet(challenge, w', n', m');
    WalletLineUnique(w, Body(n, m.Print()), w', Body(n', m'.Print()));
  }

  /** A vault challenge is valid for at most one operator and vault. */
  lemma VaultUnique(k: Base58, challenge: string, o: Pubkey, v: Pubkey, o': Pubkey, v': Pubkey)
    requires Sound(k) && ValidVault(k, challenge, o, v) && ValidVault(k, challenge, o', v')
    ensures o == o' && v == v'
  {
    VaultExactly(k, challenge, o, v);
    VaultExactly(k, challenge, o', v');
    var n, m :| IsVault(challenge, k.encode(o), k.encode(v), n, m);
    var n', m' :| IsVault(challenge, k.encode(o'), k.encode(v'), n', m');
    var b, b' := Body(n, m.Print()), Body(n', m'.Print());
    WalletLineUnique(k.encode(o), b + VAULT + k.encode(v), k.encode(o'), b' + VAULT + k.encode(v'));
    BodyShape(n, m);
    BodyShape(n', m');
    assert k.encode(v) == (b + VAULT + k.encode(v))[104 + |VAULT|..];
    assert k.encode(v') == (b' + VAULT + k.encode(v'))[104 + |VAULT|..];
  }

  /** No challenge is both a wallet's and a vault's. */
  lemma WalletVaultApart(k: Base58, challenge: string, wallet: string, operator: Pubkey, vault: Pubkey)
    requires Sound(k) && ValidWallet(k, challenge, wallet)
    ensures !ValidVault(k, challenge, operator, vault)
  {
    WalletExactly(k, challenge, wallet);
    VaultExactly(k, challenge, operator, vault);
    var n, m :| IsWallet(challenge, wallet, n, m);
    BodyShape(n, m);
    forall n', m' | IsVault(challenge, k.encode(operator), k.encode(vault), n', m')
      ensures false
    {
      var b, b' := Body(n, m.Print()), Body(n', m'.Print());
      BodyShape(n', m');
      WalletLineUnique(wallet, b, k.encode(operator), b' + VAULT + k.encode(vault));
    }
  }
}
