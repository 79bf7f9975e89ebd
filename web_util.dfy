/** webutil of web.js: parsing a ripple address with its query parameters,
    picking the issuer with the highest trust limit, and looking up a
    contact. */
module WebUtil {
  import opened Js

  /** webutil.stripRippleAddress: a string loses everything from its first
      `?` on, and is returned whole when it has none; any other value is
      returned unchanged. */
  function StripRippleAddress(addr: Json): (r: Json)
    ensures !addr.JStr? ==> r == addr
    ensures addr.JStr? ==> r.JStr? && r.str <= addr.str && '?' !in r.str
    ensures addr.JStr? && '?' !in addr.str ==> r == addr
    ensures addr.JStr? && '?' in addr.str ==> |r.str| < |addr.str| && addr.str[|r.str|] == '?'
  {
    if addr.JStr? then
      var index := IndexOf(addr.str, "?");
      IndexOfChar(addr.str, '?');
      if index >= 0 then JStr(addr.str[..index]) else addr
    else addr
  }

  /** Stripping twice is stripping once. */
  lemma StripIdempotent(addr: Json)
    ensures StripRippleAddress(StripRippleAddress(addr)) == StripRippleAddress(addr)
  {
  }

  /** The text of `addr` from its first `?` on, or None when it has none. */
  function Query(addr: string): (q: Option<string>)
    ensures q.None? <==> '?' !in addr
    ensures q.Some? ==>
      0 < |q.value| <= |addr| && q.value[0] == '?' &&
      q.value == addr[|addr| - |q.value|..] && '?' !in addr[..|addr| - |q.value|]
  {
    var index := IndexOf(addr, "?");
    IndexOfChar(addr, '?');
    if index >= 0 then Some(addr[index..]) else None
  }

  /** The text after the first occurrence of `pat`. */
  function After(s: string, pat: string): (r: string)
    requires Contains(s, pat)
    ensures exists i :: OccursAt(s, pat, i) && (forall j :: 0 <= j < i ==> !OccursAt(s, pat, j)) &&
                        r == s[i + |pat|..]
  {
    s[IndexOf(s, pat) + |pat|..]
  }

  /** A tag value: the text up to, not including, the first `&`. Because the
      code tests `index > 0`, text with no `&`, or that starts with one, is
      returned whole. */
  function TagValue(rest: string): (r: string)
    ensures r <= rest
    ensures '&' !in rest || rest[0] == '&' ==> r == rest
    ensures '&' in rest && rest[0] != '&' ==> '&' !in r && |r| < |rest| && rest[|r|] == '&'
  {
    var index := IndexOf(rest, "&");
    IndexOfChar(rest, '&');
    if index > 0 then rest[..index] else rest
  }

  /** webutil.getDestTagFromAddress (None is `undefined`). Only the text from
      the first `?` on is searched; `dt=` takes precedence over `d=`. */
  function GetDestTagFromAddress(addr: string): (r: Option<string>)
    ensures r.None? <==>
      Query(addr).None? || (!Contains(Query(addr).value, "dt=") && !Contains(Query(addr).value, "d="))
    ensures r.Some? && Contains(Query(addr).value, "dt=") ==>
      r.value == TagValue(After(Query(addr).value, "dt="))
    ensures r.Some? && !Contains(Query(addr).value, "dt=") ==>
      r.value == TagValue(After(Query(addr).value, "d="))
  {
    var index := IndexOf(addr, "?");
    if index >= 0 then
      var query := addr[index..];
      var dt := IndexOf(query, "dt=");
      if dt >= 0 then Some(TagValue(query[dt + 3..]))
      else
        var d := IndexOf(query, "d=");
        if d >= 0 then Some(TagValue(query[d + 2..])) else None
    else None
  }

  /** The query is determined by any split of the address into a part
      without `?` and a part starting with `?`. */
  lemma QueryAt(addr: string, x: string, y: string)
    requires addr == x + y && '?' !in x && |y| > 0 && y[0] == '?'
    ensures Query(addr) == Some(y)
  {
    assert addr[|x|] == '?';
    var q := Query(addr).value;
    var k := |addr| - |q|;
    assert k == |x|;
    assert y == addr[|x|..];
  }

  /** The query part does not depend on the account part before it. */
  lemma QueryIgnoresPrefix(a: string, b: string)
    requires '?' !in a
    ensures Query(a + b) == Query(b)
  {
    if '?' in b {
      var y := Query(b).value;
      var x := b[..|b| - |y|];
      assert b == x + y;
      assert a + b == (a + x) + y;
      assert '?' !in a + x by {
        forall i | 0 <= i < |a + x| ensures (a + x)[i] != '?' {
          if i < |a| { assert (a + x)[i] == a[i]; } else { assert (a + x)[i] == x[i - |a|]; }
        }
      }
      QueryAt(a + b, a + x, y);
    } else {
      assert '?' !in a + b by {
        forall i | 0 <= i < |a + b| ensures (a + b)[i] != '?' {
          if i < |a| { assert (a + b)[i] == a[i]; } else { assert (a + b)[i] == b[i - |a|]; }
        }
      }
    }
  }

  /** The destination tag of `account + query` depends only on the query
      when the account part has no `?`. */
  lemma DestTagIgnoresAccount(account: string, rest: string)
    requires '?' !in account
    ensures GetDestTagFromAddress(account + rest) == GetDestTagFromAddress(rest)
  {
    QueryIgnoresPrefix(account, rest);
  }

  /** One trust line: its currency, the issuing account and the limit
      (the number `+limit.to_text()` gives). */
  datatype TrustLine = TrustLine(currency: string, account: string, limit: int)

  /** Line `k` is the first matching line with the highest limit, and that
      limit is above 0. */
  ghost predicate IsFirstMax(lines: seq<TrustLine>, currency: string, k: int, n: int)
    requires 0 <= n <= |lines|
  {
    0 <= k < n && lines[k].currency == currency && lines[k].limit > 0 &&
    (forall j :: 0 <= j < n && lines[j].currency == currency ==> lines[j].limit <= lines[k].limit) &&
    (forall j :: 0 <= j < k && lines[j].currency == currency ==> lines[j].limit < lines[k].limit)
  }

  /** webutil.findIssuer (None is `null`): the account of the first line in
      the currency whose limit is above 0 and above every earlier limit in
      the currency, so the highest limit wins and among equal ones the
      first; None when no line in the currency has a positive limit. */
  method FindIssuer(lines: seq<TrustLine>, currency: string) returns (r: Option<string>)
    ensures r.None? <==> forall j :: 0 <= j < |lines| && lines[j].currency == currency ==> lines[j].limit <= 0
    ensures r.Some? ==> exists k :: IsFirstMax(lines, currency, k, |lines|) && lines[k].account == r.value
  {
    var maxIssuer: Option<string> := None;
    var maxLimit := 0;
    ghost var maxIndex := -1;
    for n := 0 to |lines|
      invariant maxIssuer.None? <==> maxIndex == -1
      invariant maxIndex == -1 ==>
        maxLimit == 0 && forall j :: 0 <= j < n && lines[j].currency == currency ==> lines[j].limit <= 0
      invariant maxIndex != -1 ==>
        IsFirstMax(lines, currency, maxIndex, n) && maxLimit == lines[maxIndex].limit &&
        maxIssuer == Some(lines[maxIndex].account)
    {
      if lines[n].currency == currency {
        var limit := lines[n].limit;
        if limit > maxLimit {
          maxLimit := limit;
          maxIssuer := Some(lines[n].account);
          maxIndex := n;
        }
      }
    }
    r := maxIssuer;
  }

  /** The contract of FindIssuer fixes its answer: only one line can be the
      first one with the highest limit. */
  lemma FirstMaxUnique(lines: seq<TrustLine>, currency: string, k1: int, k2: int)
    requires IsFirstMax(lines, currency, k1, |lines|) && IsFirstMax(lines, currency, k2, |lines|)
    ensures k1 == k2
  {
  }

  /** A contact; either property may be absent. */
  datatype Contact = Contact(name: Option<string>, address: Option<string>)

  predicate Matches(c: Contact, value: string) {
    c.name == Some(value) || c.address == Some(value)
  }

  /** webutil.getContact (None is `false`): the first contact whose name or
      address is `value`; None exactly when no contact matches. */
  method GetContact(contacts: seq<Contact>, value: string) returns (r: Option<Contact>)
    ensures r.None? <==> forall j :: 0 <= j < |contacts| ==> !Matches(contacts[j], value)
    ensures r.Some? ==>
      exists k :: 0 <= k < |contacts| && contacts[k] == r.value && Matches(contacts[k], value) &&
                  forall j :: 0 <= j < k ==> !Matches(contacts[j], value)
  {
    for i := 0 to |contacts|
      invariant forall j :: 0 <= j < i ==> !Matches(contacts[j], value)
    {
      if contacts[i].name == Some(value) || contacts[i].address == Some(value) {
        return Some(contacts[i]);
      }
    }
    return None;
  }
}
