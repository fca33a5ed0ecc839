/** The `show` id synthesis of `set_params`: `params['id'] = path.gsub(/\D+/, '')`. */
module Params {
  import opened Ruby

  /** `\d` in a Ruby regexp: an ASCII decimal digit. */
  predicate IsDigit(c: char)
  {
    '0' <= c <= '9'
  }

  predicate AllDigits(s: string)
  {
    forall k :: 0 <= k < |s| ==> IsDigit(s[k])
  }

  /** `s.gsub(/\D+/, '')`: deleting every maximal run of non-digits deletes every non-digit,
      so the result keeps exactly the digits of `s`. */
  function Digits(s: string): (r: string)
    ensures |r| <= |s|
    ensures AllDigits(r)
  {
    if s == [] then []
    else (if IsDigit(s[0]) then [s[0]] else []) + Digits(s[1..])
  }

  /** The filter works piece by piece: the digits of a concatenation are the digits of
      each part, in order. Together with the one-character case this fixes `Digits`. */
  lemma {:induction false} DigitsAppend(a: string, b: string)
    ensures Digits(a + b) == Digits(a) + Digits(b)
  {
    if a == [] {
      assert a + b == b;
    } else {
      assert (a + b)[1..] == a[1..] + b;
      DigitsAppend(a[1..], b);
    }
  }

  /** A string made only of digits passes through unchanged. */
  lemma {:induction false} DigitsOfDigitString(s: string)
    requires AllDigits(s)
    ensures Digits(s) == s
  {
    if s != [] {
      DigitsOfDigitString(s[1..]);
    }
  }

  /** Filtering twice gives what filtering once gives. */
  lemma DigitsIdempotent(s: string)
    ensures Digits(Digits(s)) == Digits(s)
  {
    DigitsOfDigitString(Digits(s));
  }

  /** The id is empty exactly when the path has no digit. */
  lemma {:induction false} DigitsEmptyIff(s: string)
    ensures Digits(s) == [] <==> forall k :: 0 <= k < |s| ==> !IsDigit(s[k])
  {
    if s != [] {
      DigitsEmptyIff(s[1..]);
      assert forall k :: 1 <= k < |s| ==> s[k] == s[1..][k - 1];
    }
  }

  /** The digits of `/articles/42` are `42`. */
  lemma ArticlePath()
    ensures Digits("/articles/42") == "42"
  {
    var prefix, id := "/articles/", "42";
    assert Digits(prefix) == [] by {
    }
    assert Digits(id) == id by {
      DigitsOfDigitString(id);
    }
    assert prefix + id == "/articles/42" by {
    }
    DigitsAppend(prefix, id);
  }

  /** The params map after `set_params`, given `env['simpler.action']` and
      `env['REQUEST_PATH']`; None where a `show` request has no path and `nil.gsub` raises. */
  function SetParams(action: Option<string>, path: Option<string>, params: map<string, string>)
    : (r: Option<map<string, string>>)
    ensures r.None? <==> action == Some("show") && path.None?
    ensures r.Some? && action != Some("show") ==> r.value == params
    ensures r.Some? && action == Some("show") ==>
      "id" in r.value && r.value["id"] == Digits(path.value) && AllDigits(r.value["id"]) &&
      AgreeExcept(params, r.value, "id")
  {
    if action == Some("show") then
      match path
      case None => None
      case Some(p) => Some(params["id" := Digits(p)])
    else Some(params)
  }
}
