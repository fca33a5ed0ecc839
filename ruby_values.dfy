/** The handful of Ruby values the controller passes around: nil, Strings, Integers,
    Symbols as Hash keys, and the ordered Hash a render directive is written as. */
module Ruby {

  datatype Option<T> = None | Some(value: T) {
    /** The value, or `default` for None. */
    function GetOr(default: T): (v: T)
      ensures Some? ==> v == value
      ensures None? ==> v == default
    {
      match this
      case Some(x) => x
      case None => default
    }
  }

  /** A Hash key: a Symbol (`:json`) or a String (`'json'`); the two never compare equal. */
  datatype Key = Sym(name: string) | KeyStr(text: string)

  /** The Ruby values that can stand in a directive, a status or a body chunk. */
  datatype Value = Nil | Str(s: string) | Int(i: int)

  /** One Hash entry. */
  type Entry = (Key, Value)

  predicate DistinctKeys(h: seq<Entry>)
  {
    forall i, j :: 0 <= i < j < |h| ==> h[i].0 != h[j].0
  }

  /** A Ruby Hash: its entries in insertion order, no key twice. */
  type Hash = h: seq<Entry> | DistinctKeys(h) witness []

  /** What `env['simpler.template']` holds: a Hash (a render directive) or any other
      value; `NotHash(Nil)` is the entry not being set. */
  datatype Template = HashOf(entries: Hash) | NotHash(v: Value)

  const Unset: Template := NotHash(Nil)

  /** `b` agrees with `a` on every key other than `key`. */
  predicate AgreeExcept(a: map<string, string>, b: map<string, string>, key: string)
  {
    (forall k :: k in a && k != key ==> k in b && b[k] == a[k]) &&
    (forall k :: k in b && k != key ==> k in a)
  }

  /** `hash.keys.first`: nil for an empty Hash. */
  function FirstKey(h: seq<Entry>): (k: Option<Key>)
    ensures k.None? <==> h == []
    ensures k.Some? ==> k.value == h[0].0
  {
    if h == [] then None else Some(h[0].0)
  }

  /** `hash.values.first`: nil for an empty Hash, else the value paired with the first key. */
  function FirstValue(h: seq<Entry>): (v: Value)
    ensures h == [] ==> v == Nil
    ensures h != [] ==> (FirstKey(h).value, v) == h[0]
  {
    if h == [] then Nil else h[0].1
  }

  /** `hash.keys.include?(k)`, as a scan over the entries. */
  predicate HasKey(h: seq<Entry>, k: Key)
    ensures HasKey(h, k) <==> exists i :: 0 <= i < |h| && h[i].0 == k
  {
    if h == [] then false
    else if h[0].0 == k then true
    else
      var rest := HasKey(h[1..], k);
      assert rest ==> exists i :: 0 <= i < |h| && h[i].0 == k by {
        if rest {
          var i :| 0 <= i < |h[1..]| && h[1..][i].0 == k;
          assert h[i + 1].0 == k;
        }
      }
      assert (exists i :: 0 <= i < |h| && h[i].0 == k) ==> rest by {
        if exists i :: 0 <= i < |h| && h[i].0 == k {
          var i :| 0 <= i < |h| && h[i].0 == k;
          assert h[1..][i - 1].0 == k;
        }
      }
      rest
  }

  /** `hash[k]`: the value stored under `k`, nil when there is none. */
  function Get(h: seq<Entry>, k: Key): (v: Value)
    ensures !HasKey(h, k) ==> v == Nil
    ensures HasKey(h, k) ==> exists i :: 0 <= i < |h| && h[i] == (k, v)
  {
    if h == [] then Nil
    else if h[0].0 == k then h[0].1
    else
      var v := Get(h[1..], k);
      assert HasKey(h[1..], k) ==> exists i :: 1 <= i < |h| && h[i] == (k, v) by {
        if HasKey(h[1..], k) {
          var i :| 0 <= i < |h[1..]| && h[1..][i] == (k, v);
          assert h[i + 1] == (k, v);
        }
      }
      v
  }

  /** In a Hash the value found is the one stored under the key, since keys are distinct. */
  lemma GetStored(h: Hash, k: Key, i: nat)
    requires i < |h| && h[i].0 == k
    ensures Get(h, k) == h[i].1
  {
    var j :| 0 <= j < |h| && h[j] == (k, Get(h, k));
    assert i == j;
  }

  function DigitChar(d: nat): (c: char)
    requires d < 10
  {
    ('0' as int + d) as char
  }

  /** Decimal digits of a natural number, most significant first, no leading zero. */
  function NatToS(n: nat): (s: string)
    ensures |s| >= 1
    ensures forall k :: 0 <= k < |s| ==> '0' <= s[k] <= '9'
    ensures s[0] == '0' ==> n == 0 && s == "0"
    decreases n
  {
    if n < 10 then [DigitChar(n)] else NatToS(n / 10) + [DigitChar(n % 10)]
  }

  /** The number a string of decimal digits denotes. */
  function DecimalValue(s: string): (n: nat)
    requires forall k :: 0 <= k < |s| ==> '0' <= s[k] <= '9'
  {
    if s == [] then 0 else DecimalValue(s[..|s| - 1]) * 10 + (s[|s| - 1] as int - '0' as int)
  }

  /** Reading back the digits of `n` gives `n`. */
  lemma {:induction false} NatToSRoundTrip(n: nat)
    ensures DecimalValue(NatToS(n)) == n
    decreases n
  {
    if n >= 10 {
      var s := NatToS(n);
      NatToSRoundTrip(n / 10);
      assert s[..|s| - 1] == NatToS(n / 10);
    }
  }

  /** A minus sign followed by the digits of a positive number: the digits after the sign
      have no leading zero and read back to the number. */
  lemma NegativeText(n: nat)
    requires n >= 1
    ensures var t := "-" + NatToS(n);
      |t| >= 2 && t[0] == '-' && t[1] != '0' &&
      (forall k :: 1 <= k < |t| ==> '0' <= t[k] <= '9') && DecimalValue(t[1..]) == n
  {
    var digits := NatToS(n);
    NatToSRoundTrip(n);
    var t := "-" + digits;
    assert t[1..] == digits;
  }

  /** `v.to_s`, which is what string interpolation `"#{v}"` inserts. */
  function ToS(v: Value): (s: string)
    ensures v.Nil? ==> s == ""
    ensures v.Str? ==> s == v.s
    ensures v.Int? ==> |s| >= 1 && (s[0] == '-' <==> v.i < 0)
    ensures v.Int? && v.i >= 0 ==> (forall k :: 0 <= k < |s| ==> '0' <= s[k] <= '9') && DecimalValue(s) == v.i
    ensures v.Int? && v.i < 0 ==> (forall k :: 1 <= k < |s| ==> '0' <= s[k] <= '9') && DecimalValue(s[1..]) == -v.i
    // canonical: no leading zero, so the text is determined by the number
    ensures v.Int? && v.i >= 0 ==> (s[0] == '0' ==> s == "0")
    ensures v.Int? && v.i < 0 ==> |s| >= 2 && s[1] != '0'
  {
    match v
    case Nil => ""
    case Str(s) => s
    case Int(i) =>
      if i < 0 then
        NegativeText(-i);
        "-" + NatToS(-i)
      else
        NatToSRoundTrip(i);
        NatToS(i)
  }
}
