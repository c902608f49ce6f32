/** Cache keys of the hooks in src/cached_states/mod.rs and
    src/cached_signal/mod.rs: `format!` of a prefix, the scope id in decimal
    (`Display` for `usize`) and `std::any::type_name::<T>()`. */
module CacheKeys {

  predicate IsDecimalDigit(c: char) {
    '0' <= c <= '9'
  }

  function DecimalDigit(d: nat): (c: char)
    requires d < 10
    ensures IsDecimalDigit(c)
  {
    ('0' as int + d) as char
  }

  /** `format!("{}", n)` for an unsigned integer: at least one digit and no
      leading zero. */
  function Decimal(n: nat): (s: string)
    ensures |s| >= 1
    ensures forall j :: 0 <= j < |s| ==> IsDecimalDigit(s[j])
    ensures s[0] == '0' ==> n == 0
  {
    if n < 10 then [DecimalDigit(n)] else Decimal(n / 10) + [DecimalDigit(n % 10)]
  }

  /** The number a string of decimal digits denotes. */
  function DigitsValue(s: string): nat
    requires forall j :: 0 <= j < |s| ==> IsDecimalDigit(s[j])
  {
    if s == [] then 0
    else
      assert IsDecimalDigit(s[|s| - 1]);
      DigitsValue(s[..|s| - 1]) * 10 + (s[|s| - 1] as int - '0' as int)
  }

  /** Reading the decimal text of `n` gives `n` back. */
  lemma {:induction false} DecimalRoundTrip(n: nat)
    ensures DigitsValue(Decimal(n)) == n
  {
    if n >= 10 {
      DecimalRoundTrip(n / 10);
      var s := Decimal(n);
      assert s[..|s| - 1] == Decimal(n / 10);
    }
  }

  lemma DecimalInjective(a: nat, b: nat)
    requires Decimal(a) == Decimal(b)
    ensures a == b
  {
    DecimalRoundTrip(a);
    DecimalRoundTrip(b);
  }

  /** What `std::any::type_name` returns never starts with a decimal digit:
      Rust paths start with an identifier, other type forms with `&`, `(`,
      `[`, `*` or a keyword. */
  predicate IsTypeName(t: string) {
    t == [] || !IsDecimalDigit(t[0])
  }

  /** `format!("signal-{}{}", scope_id, type_name)` (src/cached_states/mod.rs). */
  function SignalKey(scopeId: nat, typeName: string): (key: string)
    ensures key == "signal-" + ScopeTypeKey(scopeId, typeName)
  {
    "signal-" + Decimal(scopeId) + typeName
  }

  /** `format!("state-{}{}", scope_id, type_name)` (src/cached_states/mod.rs). */
  function StateKey(scopeId: nat, typeName: string): (key: string)
    ensures key == "state-" + ScopeTypeKey(scopeId, typeName)
  {
    "state-" + Decimal(scopeId) + typeName
  }

  /** `format!("{}{}", scope_id, type_name)` (src/cached_signal/mod.rs). */
  function ScopeTypeKey(scopeId: nat, typeName: string): (key: string)
    ensures |key| > |typeName|
    ensures key[..|key| - |typeName|] == Decimal(scopeId) && key[|key| - |typeName|..] == typeName
  {
    Decimal(scopeId) + typeName
  }

  /** Without a separator, the scope id and the type name can be told apart
      only because a type name never starts with a digit. */
  lemma {:induction false} ScopeTypeKeyInjective(id1: nat, t1: string, id2: nat, t2: string)
    requires IsTypeName(t1) && IsTypeName(t2)
    requires ScopeTypeKey(id1, t1) == ScopeTypeKey(id2, t2)
    ensures id1 == id2 && t1 == t2
  {
    var d1, d2 := Decimal(id1), Decimal(id2);
    var k := ScopeTypeKey(id1, t1);
    // k is digits up to |d1| and |d2|, and a non-digit (or nothing) at each
    assert forall j :: 0 <= j < |d1| ==> IsDecimalDigit(k[j]);
    assert forall j :: 0 <= j < |d2| ==> IsDecimalDigit(k[j]);
    assert |d1| < |k| ==> !IsDecimalDigit(k[|d1|]);
    assert |d2| < |k| ==> !IsDecimalDigit(k[|d2|]);
    assert |d1| == |d2|;
    assert d1 == k[..|d1|] == d2;
    assert t1 == k[|d1|..] == t2;
    DecimalInjective(id1, id2);
  }

  /** Two `use_cached_signal` keys are equal only for the same scope and type. */
  lemma SignalKeyInjective(id1: nat, t1: string, id2: nat, t2: string)
    requires IsTypeName(t1) && IsTypeName(t2)
    requires SignalKey(id1, t1) == SignalKey(id2, t2)
    ensures id1 == id2 && t1 == t2
  {
    var p := "signal-";
    assert SignalKey(id1, t1) == p + ScopeTypeKey(id1, t1);
    assert SignalKey(id2, t2) == p + ScopeTypeKey(id2, t2);
    assert ScopeTypeKey(id1, t1) == SignalKey(id1, t1)[|p|..];
    assert ScopeTypeKey(id2, t2) == SignalKey(id2, t2)[|p|..];
    ScopeTypeKeyInjective(id1, t1, id2, t2);
  }

  /** Two `use_cached_state` keys are equal only for the same scope and type. */
  lemma StateKeyInjective(id1: nat, t1: string, id2: nat, t2: string)
    requires IsTypeName(t1) && IsTypeName(t2)
    requires StateKey(id1, t1) == StateKey(id2, t2)
    ensures id1 == id2 && t1 == t2
  {
    var p := "state-";
    assert StateKey(id1, t1) == p + ScopeTypeKey(id1, t1);
    assert StateKey(id2, t2) == p + ScopeTypeKey(id2, t2);
    assert ScopeTypeKey(id1, t1) == StateKey(id1, t1)[|p|..];
    assert ScopeTypeKey(id2, t2) == StateKey(id2, t2)[|p|..];
    ScopeTypeKeyInjective(id1, t1, id2, t2);
  }

  /** A signal and a state never share a cache slot, whatever the scopes
      and types. */
  lemma SignalAndStateKeysDiffer(id1: nat, t1: string, id2: nat, t2: string)
    ensures SignalKey(id1, t1) != StateKey(id2, t2)
  {
    assert SignalKey(id1, t1)[1] == 'i';
    assert StateKey(id2, t2)[1] == 't';
  }

  /** The hazard the type-name condition rules out: scope 1 with a type
      name "2T" and scope 12 with "T" would share a key. */
  lemma DigitLeadingNameCollides()
    ensures ScopeTypeKey(1, "2T") == ScopeTypeKey(12, "T")
    ensures !IsTypeName("2T")
  {
    assert Decimal(12) == Decimal(1) + [DecimalDigit(2)];
  }
}
