/**
 * The two value objects of the kernel: Money (a non-negative amount at
 * scale 2 with a currency) and Email (a string that passed one fixed
 * pattern). Both are immutable; every operation builds a new value.
 */
module ValueObjects {
  import opened Shared

  // ---------------------------------------------------------------------
  // Money
  // ---------------------------------------------------------------------

  /** An ISO 4217 code, compared by equality only. */
  type Currency = string

  const CNY: Currency := "CNY"
  const USD: Currency := "USD"

  /** A `BigDecimal`: the value `unscaled / 10^scale`. */
  datatype Decimal = Decimal(unscaled: int, scale: nat)

  /** A constructed Money: the amount is `cents / 100` at scale 2, which the
      constructor guarantees is non-negative. */
  datatype Money = Money(cents: nat, currency: Currency)

  function Pow10(n: nat): (p: nat)
    ensures p >= 1
  {
    if n == 0 then 1 else 10 * Pow10(n - 1)
  }

  lemma {:induction false} Pow10Add(a: nat, b: nat)
    ensures Pow10(a + b) == Pow10(a) * Pow10(b)
    decreases a
  {
    if a > 0 {
      Pow10Add(a - 1, b);
    }
  }

  /** `n / d` rounded to an integer with ties going up (`RoundingMode.HALF_UP`
      on a non-negative value): the result is the integer nearest to `n / d`,
      and of two equally near integers the larger. */
  function HalfUp(n: nat, d: nat): (r: nat)
    requires d > 0
    ensures (2 * r - 1) * d <= 2 * n < (2 * r + 1) * d
  {
    var q := (2 * n + d) / (2 * d);
    var m := (2 * n + d) % (2 * d);
    assert 2 * n + d == q * (2 * d) + m && 0 <= m < 2 * d;
    assert (2 * q - 1) * d == 2 * n - m;
    q
  }

  lemma MulLe(x: int, y: int, d: nat)
    requires x <= y
    ensures x * d <= y * d
  {
    assert y * d - x * d == (y - x) * d;
  }

  /** Cancels a positive factor from both sides of `<=`. */
  lemma CancelLe(a: int, b: int, d: nat)
    requires d > 0 && a * d <= b * d
    ensures a <= b
  {
    if a > b {
      MulLe(b + 1, a, d);
    }
  }

  /** Half-up rounding is exact when the division is. */
  lemma HalfUpExact(k: nat, d: nat)
    requires d > 0
    ensures HalfUp(k * d, d) == k
  {
    var r: int := HalfUp(k * d, d);
    assert 2 * (k * d) == (2 * k) * d;
    CancelLe(2 * r - 1, 2 * k, d);
    CancelLe(2 * k, 2 * r, d) by {
      MulLe(2 * k, 2 * r, d) by {
        if 2 * k > 2 * r {
          MulLe(2 * r + 1, 2 * k, d);
        }
      }
    }
  }

  /** Rounding a quotient no larger than `k` yields at most `k`. */
  lemma HalfUpAtMost(n: nat, d: nat, k: nat)
    requires d > 0 && n <= k * d
    ensures HalfUp(n, d) <= k
  {
    var r: int := HalfUp(n, d);
    assert 2 * (k * d) == (2 * k) * d;
    CancelLe(2 * r - 1, 2 * k, d);
  }

  /** Half-up rounding is monotone in the numerator. */
  lemma HalfUpMonotone(n: nat, m: nat, d: nat)
    requires d > 0 && n <= m
    ensures HalfUp(n, d) <= HalfUp(m, d)
  {
    var r, s := HalfUp(n, d), HalfUp(m, d);
    if r > s {
      MulLe(2 * s + 1, 2 * r - 1, d);
    }
  }

  /** The compact constructor `new Money(amount, currency)`: a null or
      negative amount and a null currency are rejected; the amount is then
      stored rounded half-up to 2 decimals. */
  function NewMoney(amount: Option<Decimal>, currency: Option<Currency>): (r: Result<Money>)
    ensures r.Ok? <==> amount.Some? && amount.value.unscaled >= 0 && currency.Some?
    ensures r.Err? ==> r.kind == Validation
    ensures r.Ok? ==> r.value.currency == currency.value
    ensures r.Ok? ==>
      var d := Pow10(amount.value.scale);
      (2 * r.value.cents - 1) * d <= 2 * 100 * amount.value.unscaled < (2 * r.value.cents + 1) * d
  {
    if amount.None? then Err(Validation)
    else if amount.value.unscaled < 0 then Err(Validation)
    else if currency.None? then Err(Validation)
    else Ok(Money(HalfUp(100 * amount.value.unscaled, Pow10(amount.value.scale)), currency.value))
  }

  /** An amount given with at most two decimals is stored exactly. */
  lemma NewMoneyExact(u: nat, scale: nat, c: Currency)
    requires scale <= 2
    ensures NewMoney(Some(Decimal(u, scale)), Some(c)) == Ok(Money(u * Pow10(2 - scale), c))
  {
    Pow10Add(2 - scale, scale);
    assert 100 * u == (u * Pow10(2 - scale)) * Pow10(scale);
    HalfUpExact(u * Pow10(2 - scale), Pow10(scale));
  }

  /** `Money.cny`. */
  function Cny(amount: Decimal): (r: Result<Money>)
    ensures r.Ok? <==> amount.unscaled >= 0
    ensures r.Ok? ==> r.value.currency == CNY
  {
    NewMoney(Some(amount), Some(CNY))
  }

  /** `Money.usd`. */
  function Usd(amount: Decimal): (r: Result<Money>)
    ensures r.Ok? <==> amount.unscaled >= 0
    ensures r.Ok? ==> r.value.currency == USD
  {
    NewMoney(Some(amount), Some(USD))
  }

  /** `Money.zero`. */
  function Zero(currency: Currency): (r: Money)
    ensures IsZero(r) && r.currency == currency
    ensures NewMoney(Some(Decimal(0, 0)), Some(currency)) == Ok(r)
  {
    HalfUpExact(0, 1);
    Money(0, currency)
  }

  /** `Money.add`: currency-checked and exact. */
  function Add(a: Money, b: Money): (r: Result<Money>)
    ensures r.Ok? <==> a.currency == b.currency
    ensures r.Err? ==> r.kind == Validation
    ensures r.Ok? ==> r.value.cents == a.cents + b.cents && r.value.currency == a.currency
  {
    if a.currency != b.currency then Err(Validation)
    else Ok(Money(a.cents + b.cents, a.currency))
  }

  /** `Money.subtract`: currency-checked; a difference below zero is
      rejected by the constructor's non-negative check. */
  function Subtract(a: Money, b: Money): (r: Result<Money>)
    ensures r.Ok? <==> a.currency == b.currency && b.cents <= a.cents
    ensures r.Err? ==> r.kind == Validation
    ensures r.Ok? ==> r.value.cents + b.cents == a.cents && r.value.currency == a.currency
  {
    if a.currency != b.currency then Err(Validation)
    else if a.cents - b.cents < 0 then Err(Validation)
    else Ok(Money(a.cents - b.cents, a.currency))
  }

  /** `Money.multiply`: no currency check. The exact product is checked for
      sign before the constructor rounds it, so any negative product fails,
      even one that would round to zero. */
  function Multiply(a: Money, m: Decimal): (r: Result<Money>)
    ensures r.Ok? <==> a.cents == 0 || m.unscaled >= 0
    ensures r.Err? ==> r.kind == Validation
    ensures r.Ok? ==> r.value.currency == a.currency
    ensures r.Ok? ==>
      var d := Pow10(m.scale);
      (2 * r.value.cents - 1) * d <= 2 * (a.cents * m.unscaled) < (2 * r.value.cents + 1) * d
  {
    var product := a.cents * m.unscaled;
    ProductSign(a.cents, m.unscaled);
    if product < 0 then Err(Validation)
    else Ok(Money(HalfUp(product, Pow10(m.scale)), a.currency))
  }

  /** A non-negative factor times another is negative exactly when the
      first is positive and the second negative. */
  lemma ProductSign(x: nat, y: int)
    ensures x * y < 0 <==> x > 0 && y < 0
  {
    if x > 0 && y < 0 {
      MulLe(y, -1, x);
    } else if y >= 0 {
      MulLe(0, y, x);
    }
  }

  /** `Money.isGreaterThan`: currency-checked strict comparison. */
  function IsGreaterThan(a: Money, b: Money): (r: Result<bool>)
    ensures r.Ok? <==> a.currency == b.currency
    ensures r.Err? ==> r.kind == Validation
    ensures r.Ok? ==> (r.value <==> a.cents > b.cents)
  {
    if a.currency != b.currency then Err(Validation)
    else Ok(a.cents > b.cents)
  }

  /** `Money.isZero`. */
  predicate IsZero(a: Money) {
    a.cents == 0
  }

  /** Addition commutes whenever it is defined, and fails on both orders
      alike when the currencies differ. */
  lemma AddCommutes(a: Money, b: Money)
    ensures Add(a, b) == Add(b, a)
  {
  }

  /** Subtracting what was added gives back the original amount. */
  lemma SubtractUndoesAdd(a: Money, b: Money)
    requires a.currency == b.currency
    ensures Add(a, b).Ok? && Subtract(Add(a, b).value, b) == Ok(a)
  {
  }

  /** Adding back what was subtracted restores the original amount. */
  lemma AddUndoesSubtract(a: Money, b: Money)
    requires Subtract(a, b).Ok?
    ensures Add(Subtract(a, b).value, b) == Ok(a)
  {
  }

  /** Multiplying by a whole count `n` (`BigDecimal.valueOf(n)`) is exact. */
  lemma MultiplyByCount(a: Money, n: nat)
    ensures Multiply(a, Decimal(n, 0)) == Ok(Money(a.cents * n, a.currency))
  {
    HalfUpExact(a.cents * n, 1);
  }

  /** Multiplying by a rate of at most one never increases the amount. */
  lemma MultiplyByFractionAtMost(a: Money, rate: Decimal)
    requires 0 <= rate.unscaled <= Pow10(rate.scale)
    ensures Multiply(a, rate).Ok? && Multiply(a, rate).value.cents <= a.cents
  {
    var d := Pow10(rate.scale);
    MulLe(rate.unscaled, d, a.cents);
    assert a.cents * rate.unscaled <= a.cents * d;
    HalfUpAtMost(a.cents * rate.unscaled, d, a.cents);
  }

  /** `isGreaterThan` is a strict order on amounts of one currency. */
  lemma IsGreaterThanIsStrictOrder(a: Money, b: Money, c: Money)
    requires a.currency == b.currency == c.currency
    ensures IsGreaterThan(a, a) == Ok(false)
    ensures IsGreaterThan(a, b) == Ok(true) ==> IsGreaterThan(b, a) == Ok(false)
    ensures IsGreaterThan(a, b) == Ok(true) && IsGreaterThan(b, c) == Ok(true) ==> IsGreaterThan(a, c) == Ok(true)
  {
  }

  /** The example of half-up rounding: 10.005 USD is stored as 10.01. */
  lemma HalfUpRoundsTiesUp()
    ensures NewMoney(Some(Decimal(10005, 3)), Some(USD)) == Ok(Money(1001, USD))
    ensures NewMoney(Some(Decimal(10004, 3)), Some(USD)) == Ok(Money(1000, USD))
  {
    assert Pow10(3) == 1000;
  }

  // ---------------------------------------------------------------------
  // Email
  // ---------------------------------------------------------------------

  /** A constructed Email; its value always satisfies `IsValidEmail`. */
  datatype Email = Email(value: string)

  /** `[A-Za-z]` */
  predicate IsLetter(c: char) {
    'A' <= c <= 'Z' || 'a' <= c <= 'z'
  }

  predicate IsDigit(c: char) {
    '0' <= c <= '9'
  }

  /** `[A-Za-z0-9+_.-]`, the characters of the part before '@'. */
  predicate IsLocalChar(c: char) {
    IsLetter(c) || IsDigit(c) || c == '+' || c == '_' || c == '.' || c == '-'
  }

  /** `[A-Za-z0-9.-]`, the characters of the host name before the last dot. */
  predicate IsHostChar(c: char) {
    IsLetter(c) || IsDigit(c) || c == '.' || c == '-'
  }

  predicate AllLocal(s: string) {
    forall i :: 0 <= i < |s| ==> IsLocalChar(s[i])
  }

  predicate AllHost(s: string) {
    forall i :: 0 <= i < |s| ==> IsHostChar(s[i])
  }

  predicate AllLetters(s: string) {
    forall i :: 0 <= i < |s| ==> IsLetter(s[i])
  }

  /** The pattern `^[A-Za-z0-9+_.-]+@[A-Za-z0-9.-]+\.[A-Za-z]{2,}$` split at
      the '@' (index `at`) and at the dot before the top-level domain
      (index `dot`). */
  predicate EmailShape(s: string, at: int, dot: int) {
    && 0 < at
    && at + 1 < dot
    && dot + 3 <= |s|
    && AllLocal(s[..at])
    && s[at] == '@'
    && AllHost(s[at + 1..dot])
    && s[dot] == '.'
    && AllLetters(s[dot + 1..])
  }

  /** The regular expression, stated as the existence of a split. */
  ghost predicate MatchesEmailPattern(s: string) {
    exists at, dot :: EmailShape(s, at, dot)
  }

  /** Index of the first occurrence of `c`, if any. */
  function IndexOf(s: string, c: char): (r: Option<nat>)
    ensures r.Some? ==> r.value < |s| && s[r.value] == c
    ensures r.Some? ==> forall i :: 0 <= i < r.value ==> s[i] != c
    ensures r.None? ==> forall i :: 0 <= i < |s| ==> s[i] != c
  {
    if s == [] then None
    else if s[0] == c then Some(0)
    else match IndexOf(s[1..], c)
      case None => None
      case Some(k) => Some(k + 1)
  }

  /** Index of the last occurrence of `c`, if any. */
  function LastIndexOf(s: string, c: char): (r: Option<nat>)
    ensures r.Some? ==> r.value < |s| && s[r.value] == c
    ensures r.Some? ==> forall i :: r.value < i < |s| ==> s[i] != c
    ensures r.None? ==> forall i :: 0 <= i < |s| ==> s[i] != c
  {
    if s == [] then None
    else if s[|s| - 1] == c then Some(|s| - 1)
    else LastIndexOf(s[..|s| - 1], c)
  }

  /** Hand-coded matcher for the pattern: the local part ends at the first
      '@' and the top-level domain starts after the last '.'. */
  predicate IsValidEmail(s: string) {
    match IndexOf(s, '@')
    case None => false
    case Some(at) =>
      match LastIndexOf(s, '.')
      case None => false
      case Some(dot) => EmailShape(s, at, dot)
  }

  /** The matcher accepts exactly the strings the pattern matches. Neither
      character class holds '@', so the split's '@' is the first one; the
      top-level domain holds no '.', so the split's dot is the last one. */
  lemma IsValidEmailMatchesPattern(s: string)
    ensures IsValidEmail(s) <==> MatchesEmailPattern(s)
  {
    if MatchesEmailPattern(s) {
      var at, dot :| EmailShape(s, at, dot);
      var first := IndexOf(s, '@');
      assert first.Some? && first.value <= at by {
        assert s[at] == '@';
      }
      var last := LastIndexOf(s, '.');
      assert last.Some? && last.value >= dot by {
        assert s[dot] == '.';
      }
    }
  }

  /** The compact constructor `new Email(value)`. */
  function NewEmail(value: string): (r: Result<Email>)
    ensures r.Ok? <==> MatchesEmailPattern(value)
    ensures r.Ok? ==> r.value.value == value && !Blank(value)
    ensures r.Err? ==> r.kind == Validation
  {
    IsValidEmailMatchesPattern(value);
    if Blank(value) then Err(Validation)
    else if !IsValidEmail(value) then Err(Validation)
    else Ok(Email(value))
  }

  /** `Email.getLocalPart`: everything before the '@'. */
  function LocalPart(e: Email): (r: string)
    requires IsValidEmail(e.value)
  {
    e.value[..IndexOf(e.value, '@').value]
  }

  /** `Email.getDomain`: everything after the '@'. */
  function Domain(e: Email): (r: string)
    requires IsValidEmail(e.value)
  {
    e.value[IndexOf(e.value, '@').value + 1..]
  }

  /** Number of occurrences of `c` in `s`. */
  function Count(s: string, c: char): nat {
    if s == [] then 0 else (if s[0] == c then 1 else 0) + Count(s[1..], c)
  }

  lemma {:induction false} CountAppend(a: string, b: string, c: char)
    ensures Count(a + b, c) == Count(a, c) + Count(b, c)
    decreases |a|
  {
    if a != [] {
      assert (a + b)[1..] == a[1..] + b;
      CountAppend(a[1..], b, c);
    } else {
      assert a + b == b;
    }
  }

  lemma {:induction false} CountAbsent(s: string, c: char)
    requires c !in s
    ensures Count(s, c) == 0
    decreases |s|
  {
    if s != [] {
      assert s == [s[0]] + s[1..];
      CountAbsent(s[1..], c);
    }
  }

  /** After the '@' of a match, host characters and letters follow: no
      second '@'. */
  lemma NoSecondAt(s: string, at: int, dot: int)
    requires EmailShape(s, at, dot)
    ensures '@' !in s[at + 1..]
  {

  }

  /** A valid email splits at its '@' into a non-empty local part and a
      non-empty domain; it has exactly one '@'; and the domain ends with a
      dot and at least two letters. */
  lemma EmailParts(e: Email)
    requires IsValidEmail(e.value)
    ensures LocalPart(e) + "@" + Domain(e) == e.value
    ensures LocalPart(e) != [] && Domain(e) != []
    ensures Count(e.value, '@') == 1
    ensures var d := Domain(e); exists k :: 0 <= k && k + 3 <= |d| && d[k] == '.' && AllLetters(d[k + 1..])
  {
    var s := e.value;
    var at := IndexOf(s, '@').value;
    assert s == s[..at] + [s[at]] + s[at + 1..];
    EmailHasOneAt(s, at, LastIndexOf(s, '.').value);
    EmailDomainEnds(s, at, LastIndexOf(s, '.').value);
  }

  /** The '@' of a match is the only one. */
  lemma EmailHasOneAt(s: string, at: int, dot: int)
    requires EmailShape(s, at, dot)
    requires forall i :: 0 <= i < at ==> s[i] != '@'
    ensures Count(s, '@') == 1
  {
    assert s == s[..at] + [s[at]] + s[at + 1..];
    NoSecondAt(s, at, dot);
    assert '@' !in s[..at];
    CountAbsent(s[..at], '@');
    CountAbsent(s[at + 1..], '@');
    CountAppend(s[..at], [s[at]], '@');
    CountAppend(s[..at] + [s[at]], s[at + 1..], '@');
  }

  /** After the '@' of a match come a dot and at least two letters. */
  lemma EmailDomainEnds(s: string, at: int, dot: int)
    requires EmailShape(s, at, dot)
    ensures var d := s[at + 1..]; exists k :: 0 <= k && k + 3 <= |d| && d[k] == '.' && AllLetters(d[k + 1..])
  {
    var d := s[at + 1..];
    var k := dot - at - 1;
    assert d[k] == '.';
    assert d[k + 1..] == s[dot + 1..];
  }
}
