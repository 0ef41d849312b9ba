/** The in-memory idempotency cache (src/utils/idempotency.util.ts): a 32-bit rolling
    hash that names an operation, and a map of results that expire lazily on lookup or
    in a sweep. The clock is the `now` parameter (milliseconds); the background sweep
    timer is not modelled, and `Cleanup` is an ordinary method. */
module Idempotency {
  import opened Wrappers

  const TwoTo31: int := 0x8000_0000
  const TwoTo32: int := 0x1_0000_0000

  /** 24 hours in milliseconds: the time-to-live of an entry when none is given. */
  const DefaultTtl: int := 24 * 60 * 60 * 1000

  /** The signed 32-bit integer that JavaScript's bitwise operators produce from `x`:
      the one value in [-2^31, 2^31) congruent to `x` modulo 2^32. */
  function ToInt32(x: int): int {
    var m := x % TwoTo32;
    if m >= TwoTo31 then m - TwoTo32 else m
  }

  /** ToInt32 is the signed 32-bit value congruent to `x`. */
  lemma ToInt32Range(x: int)
    ensures -TwoTo31 <= ToInt32(x) < TwoTo31
    ensures (x - ToInt32(x)) % TwoTo32 == 0
  {
  }

  /** Adding a multiple of 2^32 does not change the 32-bit value. */
  lemma ToInt32Shift(x: int, k: int)
    ensures ToInt32(x + k * TwoTo32) == ToInt32(x)
  {
    assert (x + k * TwoTo32) % TwoTo32 == x % TwoTo32;
  }

  /** One step of the rolling hash: `hash = (hash << 5) - hash + char; hash = hash & hash`. */
  function HashStep(h: int, c: int): int {
    ToInt32(ToInt32(h * 32) - h + c)
  }

  /** The hash of a text, one character code at a time (`charCodeAt`), starting from 0.
      A character here is one code unit, as every character of the basic multilingual
      plane is. */
  function Hash(s: string): int {
    if s == [] then 0 else HashStep(Hash(s[..|s| - 1]), s[|s| - 1] as int)
  }

  /** The reference definition: the polynomial sum of c_i * 31^(n-1-i) over the text,
      with no wrap-around. */
  function Poly(s: string): int {
    if s == [] then 0 else 31 * Poly(s[..|s| - 1]) + s[|s| - 1] as int
  }

  /** One rolling step is multiplication by 31 and addition, modulo 2^32. */
  lemma HashStepIsPoly(h: int, p: int, c: int)
    requires h == ToInt32(p)
    ensures HashStep(h, c) == ToInt32(31 * p + c)
  {
    ToInt32Range(h * 32);
    ToInt32Range(p);
    var a := (h * 32 - ToInt32(h * 32)) / TwoTo32;
    assert ToInt32(h * 32) == h * 32 - a * TwoTo32;
    var b := (p - h) / TwoTo32;
    assert h == p - b * TwoTo32;
    calc {
      HashStep(h, c);
      ToInt32(h * 32 - a * TwoTo32 - h + c);
      { ToInt32Shift(31 * h + c, -a); }
      ToInt32(31 * h + c);
      ToInt32(31 * p + c - 31 * b * TwoTo32);
      { ToInt32Shift(31 * p + c, -31 * b); }
      ToInt32(31 * p + c);
    }
  }

  /** The rolling hash is the 31-polynomial of the text reduced to 32 bits. */
  lemma {:induction false} HashIsPoly(s: string)
    ensures Hash(s) == ToInt32(Poly(s))
  {
    if s != [] {
      HashIsPoly(s[..|s| - 1]);
      HashStepIsPoly(Hash(s[..|s| - 1]), Poly(s[..|s| - 1]), s[|s| - 1] as int);
    }
  }

  /** Two code-unit pairs with equal 31-polynomial hash alike after any prefix. */
  lemma HashPairCollision(t: string, x: char, y: char, u: char, v: char)
    requires 31 * (x as int) + y as int == 31 * (u as int) + v as int
    ensures Hash(t + [x, y]) == Hash(t + [u, v])
  {
    var p := Poly(t);
    assert (t + [x, y])[..|t| + 1] == t + [x];
    assert (t + [u, v])[..|t| + 1] == t + [u];
    assert (t + [x])[..|t|] == t;
    assert (t + [u])[..|t|] == t;
    assert Poly(t + [x, y]) == 961 * p + 31 * (x as int) + y as int;
    assert Poly(t + [u, v]) == 961 * p + 31 * (u as int) + v as int;
    HashIsPoly(t + [x, y]);
    HashIsPoly(t + [u, v]);
  }

  /** The digit characters of Number.prototype.toString: 0-9 then a-z. */
  function DigitChar(d: nat): (c: char)
    requires d < 36
  {
    if d < 10 then ('0' as int + d) as char else ('a' as int + d - 10) as char
  }

  function DigitValue(c: char): int {
    if '0' <= c <= '9' then c as int - '0' as int
    else if 'a' <= c <= 'z' then c as int - 'a' as int + 10
    else -1
  }

  /** `n.toString(base)` for a non-negative whole number: most significant digit first,
      no leading zeros, "0" for zero. */
  function Digits(n: nat, base: nat): (s: string)
    requires 2 <= base <= 36
    ensures |s| >= 1
    ensures forall i :: 0 <= i < |s| ==> s[i] != ':' && 0 <= DigitValue(s[i]) < base
    decreases n
  {
    if n < base then [DigitChar(n)]
    else
      DivisionStep(n, base);
      Digits(n / base, base) + [DigitChar(n % base)]
  }

  /** The facts about n / base and n % base that the digit functions rest on. */
  lemma DivisionStep(n: nat, base: nat)
    requires 2 <= base <= n
    ensures 0 < n / base < n && 0 <= n % base < base
    ensures n == n / base * base + n % base
  {
  }

  /** Reading the digits back, most significant first. */
  function FromDigits(s: string, base: nat): int {
    if s == [] then 0 else FromDigits(s[..|s| - 1], base) * base + DigitValue(s[|s| - 1])
  }

  /** Digits and FromDigits are inverse: the rendering loses nothing. */
  lemma {:induction false} DigitsRoundTrip(n: nat, base: nat)
    requires 2 <= base <= 36
    ensures FromDigits(Digits(n, base), base) == n
    decreases n
  {
    var s := Digits(n, base);
    if n < base {
      assert s[..0] == [];
    } else {
      DivisionStep(n, base);
      DigitsRoundTrip(n / base, base);
      assert s[..|s| - 1] == Digits(n / base, base);
    }
  }

  /** The rendering of an amount of cents that `${amount}` gives for the number
      cents / 100: no trailing zeros after the point, and no point for whole units. */
  function AmountText(cents: int): (text: string)
    ensures forall i :: 0 <= i < |text| ==> text[i] != ':'
  {
    var n := if cents < 0 then -cents else cents;
    var units := Digits(n / 100, 10);
    var fraction :=
      if n % 100 == 0 then ""
      else if n % 10 == 0 then "." + [DigitChar(n % 100 / 10)]
      else "." + [DigitChar(n % 100 / 10), DigitChar(n % 10)];
    (if cents < 0 then "-" else "") + units + fraction
  }

  lemma AmountTextExamples()
    ensures AmountText(5000) == "50"
    ensures AmountText(5050) == "50.5"
    ensures AmountText(5005) == "50.05"
    ensures AmountText(1) == "0.01"
  {
    assert Digits(50, 10) == Digits(5, 10) + [DigitChar(0)];
    assert Digits(0, 10) == "0";
  }

  /** The two operations a key can name. */
  datatype Operation = Fund | Transfer

  function OperationName(op: Operation): string {
    match op
    case Fund => "fund"
    case Transfer => "transfer"
  }

  const KeyPrefix: string := "idempotency:"

  /** The text that is hashed: `walletId:operation:amount:additionalData`, with a
      missing or empty additional datum written as nothing. */
  function KeyText(walletId: string, op: Operation, amount: int, additionalData: Option<string>): string {
    var extra := if additionalData.Some? then additionalData.value else "";
    walletId + ":" + OperationName(op) + ":" + AmountText(amount) + ":" + extra
  }

  function Abs(x: int): nat {
    if x < 0 then -x else x
  }

  /** The key generateKey returns. */
  function Key(walletId: string, op: Operation, amount: int, additionalData: Option<string>): string {
    KeyPrefix + Digits(Abs(Hash(KeyText(walletId, op, amount, additionalData))), 36) + ":" + walletId
  }

  /** Every key is the prefix, base-36 digits, a ':' and the wallet id. */
  lemma KeyShape(walletId: string, op: Operation, amount: int, additionalData: Option<string>)
    ensures var k := Key(walletId, op, amount, additionalData);
            && |k| > |KeyPrefix| + |walletId|
            && k[..|KeyPrefix|] == KeyPrefix
            && k[|k| - |walletId|..] == walletId
            && k[|k| - |walletId| - 1] == ':'
  {
  }

  /** The wallet id is recoverable from a key: keys for different wallets never collide,
      whatever the operation, amount and additional datum. */
  lemma KeysSeparateWallets(w1: string, op1: Operation, a1: int, x1: Option<string>,
                            w2: string, op2: Operation, a2: int, x2: Option<string>)
    requires Key(w1, op1, a1, x1) == Key(w2, op2, a2, x2)
    ensures w1 == w2
  {
    var d1 := Digits(Abs(Hash(KeyText(w1, op1, a1, x1))), 36);
    var d2 := Digits(Abs(Hash(KeyText(w2, op2, a2, x2))), 36);
    var k := Key(w1, op1, a1, x1);
    assert k == KeyPrefix + d1 + ":" + w1;
    assert k == KeyPrefix + d2 + ":" + w2;
    var n := |KeyPrefix|;
    assert k[n + |d1|] == ':' && k[n + |d2|] == ':';
    assert |w1| == |w2|;
    assert w1 == k[|k| - |w1|..];
  }

  /** The fund key: generateKey(walletId, 'fund', amount) with no additional datum. */
  function FundKey(walletId: string, amount: int): string {
    Key(walletId, Fund, amount, None)
  }

  /** The transfer key: the sender is the wallet and the receiver the additional datum. */
  function TransferKey(senderId: string, receiverId: string, amount: int): string {
    Key(senderId, Transfer, amount, Some(receiverId))
  }

  /** The receiver enters a transfer key only through a 32-bit hash: two receivers whose
      ids end in "Aa" and "BB" after a common stem give the same key, so a transfer to
      one is answered from the cache entry of a transfer to the other. */
  lemma TransferKeyCollision(senderId: string, stem: string, amount: int)
    ensures TransferKey(senderId, stem + "Aa", amount) == TransferKey(senderId, stem + "BB", amount)
  {
    var t := senderId + ":" + "transfer" + ":" + AmountText(amount) + ":" + stem;
    assert KeyText(senderId, Transfer, amount, Some(stem + "Aa")) == t + ['A', 'a'];
    assert KeyText(senderId, Transfer, amount, Some(stem + "BB")) == t + ['B', 'B'];
    HashPairCollision(t, 'A', 'a', 'B', 'B');
  }

  /** A stored result, when it was stored and when it stops being served. */
  datatype Entry<T> = Entry(result: T, timestamp: int, expiresAt: int)

  /** An entry expires strictly after its expiry time; at that instant it is still live. */
  predicate Expired<T>(e: Entry<T>, now: int) {
    now > e.expiresAt
  }

  /** What get returns at time `now`. */
  function Lookup<T>(store: map<string, Entry<T>>, key: string, now: int): (r: Option<T>)
    ensures r.Some? <==> key in store && !Expired(store[key], now)
    ensures r.Some? ==> r.value == store[key].result
  {
    if key in store && !Expired(store[key], now) then Some(store[key].result) else None
  }

  /** The store after get or has looked `key` up: an expired entry is dropped. */
  function AfterLookup<T>(store: map<string, Entry<T>>, key: string, now: int): map<string, Entry<T>> {
    if key in store && Expired(store[key], now) then store - {key} else store
  }

  /** The store after cleanup: exactly the live entries. */
  function Sweep<T>(store: map<string, Entry<T>>, now: int): map<string, Entry<T>> {
    map k | k in store && !Expired(store[k], now) :: store[k]
  }

  /** The keys getStats counts as expired. */
  function ExpiredKeys<T>(store: map<string, Entry<T>>, now: int): set<string> {
    set k | k in store && Expired(store[k], now)
  }

  /** A lookup's lazy deletion is invisible to every later lookup at or after the same time. */
  lemma LookupAfterLookup<T>(store: map<string, Entry<T>>, key: string, other: string, now: int, later: int)
    requires now <= later
    ensures Lookup(AfterLookup(store, key, now), other, later) == Lookup(store, other, later)
  {
  }

  /** The sweep is invisible to every lookup at or after the sweep's time. */
  lemma LookupAfterSweep<T>(store: map<string, Entry<T>>, key: string, now: int, later: int)
    requires now <= later
    ensures Lookup(Sweep(store, now), key, later) == Lookup(store, key, later)
  {
  }

  /** A set followed by a get of the same key within the time-to-live returns the result,
      and leaves every other key's lookup as it was. */
  lemma LookupAfterSet<T>(store: map<string, Entry<T>>, key: string, result: T,
                          ttl: int, now: int, other: string, later: int)
    requires now <= later <= now + ttl
    ensures Lookup(store[key := Entry(result, now, now + ttl)], key, later) == Some(result)
    ensures other != key ==>
              Lookup(store[key := Entry(result, now, now + ttl)], other, later) == Lookup(store, other, later)
  {
  }

  /** Expired keys are a subset of all keys, so their count never exceeds the total. */
  lemma ExpiredAtMostTotal<T>(store: map<string, Entry<T>>, now: int)
    ensures |ExpiredKeys(store, now)| <= |store|
  {
    var e := ExpiredKeys(store, now);
    assert e <= store.Keys;
    SubsetCard(e, store.Keys);
  }

  lemma {:induction false} SubsetCard(a: set<string>, b: set<string>)
    requires a <= b
    ensures |a| <= |b|
    decreases |b|
  {
    if a != {} {
      var x :| x in a;
      SubsetCard(a - {x}, b - {x});
    }
  }

  class IdempotencyService<T> {
    var store: map<string, Entry<T>>

    constructor ()
      ensures store == map[]
    {
      store := map[];
    }

    /** generateKey: the rolling hash over the key text in a loop, then the key. */
    method GenerateKey(walletId: string, operation: Operation, amount: int, additionalData: Option<string>)
      returns (key: string)
      ensures key == Key(walletId, operation, amount, additionalData)
    {
      var data := KeyText(walletId, operation, amount, additionalData);
      var hash := 0;
      for i := 0 to |data|
        invariant hash == Hash(data[..i])
      {
        var c := data[i] as int;
        assert data[..i + 1][..i] == data[..i];
        hash := ToInt32(hash * 32) - hash + c;
        hash := ToInt32(hash);
      }
      assert data[..|data|] == data;
      var magnitude := if hash < 0 then -hash else hash;
      key := KeyPrefix + Digits(magnitude, 36) + ":" + walletId;
    }

    method GenerateTransferKey(senderWalletId: string, receiverWalletId: string, amount: int)
      returns (key: string)
      ensures key == TransferKey(senderWalletId, receiverWalletId, amount)
    {
      key := GenerateKey(senderWalletId, Transfer, amount, Some(receiverWalletId));
    }

    method GenerateFundKey(walletId: string, amount: int) returns (key: string)
      ensures key == FundKey(walletId, amount)
    {
      key := GenerateKey(walletId, Fund, amount, None);
    }

    /** get: the live result under `key`, dropping the entry if it has expired. */
    method Get(key: string, now: int) returns (r: Option<T>)
      modifies this
      ensures key !in old(store) ==> r == None && store == old(store)
      ensures key in old(store) && Expired(old(store)[key], now) ==>
                r == None && store == old(store) - {key}
      ensures key in old(store) && !Expired(old(store)[key], now) ==>
                r == Some(old(store)[key].result) && store == old(store)
      ensures r == Lookup(old(store), key, now) && store == AfterLookup(old(store), key, now)
    {
      if key !in store {
        return None;
      }
      var entry := store[key];
      if now > entry.expiresAt {
        store := store - {key};
        return None;
      }
      r := Some(entry.result);
    }

    /** set: stores the result with expiry now + ttl (24 hours when no ttl is given). */
    method Set(key: string, result: T, ttl: Option<int>, now: int)
      modifies this
      ensures var t := if ttl.Some? then ttl.value else DefaultTtl;
              store == old(store)[key := Entry(result, now, now + t)]
    {
      var t := if ttl.Some? then ttl.value else DefaultTtl;
      store := store[key := Entry(result, now, now + t)];
    }

    /** has: whether get would return a result, with the same lazy deletion. */
    method Has(key: string, now: int) returns (b: bool)
      modifies this
      ensures b <==> Lookup(old(store), key, now).Some?
      ensures b <==> key in old(store) && !Expired(old(store)[key], now)
      ensures store == AfterLookup(old(store), key, now)
    {
      if key !in store {
        return false;
      }
      var entry := store[key];
      if now > entry.expiresAt {
        store := store - {key};
        return false;
      }
      b := true;
    }

    method Delete(key: string)
      modifies this
      ensures store == old(store) - {key}
    {
      store := store - {key};
    }

    /** cleanup: one pass over the entries, deleting each expired one. */
    method Cleanup(now: int)
      modifies this
      ensures store == Sweep(old(store), now)
    {
      var pending := store.Keys;
      while pending != {}
        invariant pending <= old(store).Keys
        invariant forall k :: k in pending ==> k in store
        invariant forall k :: k in store ==> k in old(store) && store[k] == old(store)[k]
        invariant forall k :: k in old(store) && k !in pending ==>
                    (k in store <==> !Expired(old(store)[k], now))
        decreases |pending|
      {
        var k :| k in pending;
        if now > store[k].expiresAt {
          store := store - {k};
        }
        pending := pending - {k};
      }
      assert store.Keys == Sweep(old(store), now).Keys;
    }

    method Clear()
      modifies this
      ensures store == map[]
    {
      store := map[];
    }

    /** getStats: the number of entries and, counted in a loop, the expired ones. */
    method GetStats(now: int) returns (total: nat, expired: nat)
      ensures total == |store|
      ensures expired == |ExpiredKeys(store, now)|
      ensures expired <= total
    {
      var pending := store.Keys;
      ghost var counted: set<string> := {};
      expired := 0;
      while pending != {}
        invariant pending <= store.Keys
        invariant counted == ExpiredKeys(store, now) - pending
        invariant expired == |counted|
        decreases |pending|
      {
        var k :| k in pending;
        if now > store[k].expiresAt {
          assert k !in counted;
          counted := counted + {k};
          expired := expired + 1;
        }
        pending := pending - {k};
      }
      total := |store|;
      ExpiredAtMostTotal(store, now);
    }
  }
}
