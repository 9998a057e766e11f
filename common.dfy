/** Shared vocabulary: optional values, identifiers, time, roles, and the
    decimal rendering of ids used in group names and cache keys. */
module Common {

  datatype Option<T> = None | Some(value: T)

  /** A value, or the message of the exception raised instead. */
  datatype Result<T> = Ok(value: T) | Err(message: string)

  /** An HTTP reply: the status code and the text of its "message", "error" or "detail" key. */
  datatype Response = Response(status: int, body: string)

  /** The body DRF renders for `get_object_or_404`. */
  const NotFound := "Not found."

  /** The message DRF gives a character field that is empty once stripped. */
  const Blank := "This field may not be blank."

  /** Primary keys of the user table (profiles share their user's key). */
  type UserId = nat

  /** Wall-clock instants in whole seconds. */
  type Time = int

  /** The three values of CustomUser.role; a blank role is `None` where it can occur. */
  datatype Role = Student | Supervisor | DeanOffice

  /** Python truthiness of a nullable character field: None and "" are falsy. */
  predicate Truthy(s: Option<string>) {
    s.Some? && s.value != ""
  }

  /** How Python renders a nullable character field inside an f-string. */
  function Text(s: Option<string>): string {
    if s.Some? then s.value else "None"
  }

  function DigitChar(d: nat): (c: char)
    requires d < 10
    ensures '0' <= c <= '9'
  {
    "0123456789"[d]
  }

  predicate IsDigit(c: char) {
    '0' <= c <= '9'
  }

  function DigitValue(c: char): (d: nat)
    requires IsDigit(c)
    ensures d < 10
  {
    (c as int - '0' as int) as nat
  }

  /** `str(n)` in Python, `n.toString()` in JavaScript, for a natural number. */
  function NatToString(n: nat): (s: string)
    ensures |s| >= 1
    ensures forall i :: 0 <= i < |s| ==> IsDigit(s[i])
  {
    if n < 10 then [DigitChar(n)] else NatToString(n / 10) + [DigitChar(n % 10)]
  }

  function DigitsValue(s: string): nat
    requires forall i :: 0 <= i < |s| ==> IsDigit(s[i])
  {
    if s == [] then 0 else 10 * DigitsValue(s[..|s| - 1]) + DigitValue(s[|s| - 1])
  }

  /** `int(s)` restricted to ASCII decimal digits: None for anything else. */
  function ParseNat(s: string): (r: Option<nat>)
    ensures r.Some? <==> s != [] && forall i :: 0 <= i < |s| ==> IsDigit(s[i])
  {
    if s != [] && forall i :: 0 <= i < |s| ==> IsDigit(s[i]) then Some(DigitsValue(s)) else None
  }

  lemma {:induction false} DigitRoundTrip(d: nat)
    requires d < 10
    ensures DigitValue(DigitChar(d)) == d
  {
    assert "0123456789"[d] as int == '0' as int + d by {
      if d == 0 {} else if d == 1 {} else if d == 2 {} else if d == 3 {} else if d == 4 {}
      else if d == 5 {} else if d == 6 {} else if d == 7 {} else if d == 8 {} else {}
    }
  }

  /** Parsing the rendering of an id gives the id back. */
  lemma {:induction false} ParseNatToString(n: nat)
    ensures ParseNat(NatToString(n)) == Some(n)
  {
    DigitsOfNatToString(n);
  }

  lemma {:induction false} DigitsOfNatToString(n: nat)
    ensures DigitsValue(NatToString(n)) == n
  {
    var s := NatToString(n);
    if n < 10 {
      DigitRoundTrip(n);
      assert s[..|s| - 1] == [];
    } else {
      DigitsOfNatToString(n / 10);
      DigitRoundTrip(n % 10);
      assert s[..|s| - 1] == NatToString(n / 10);
    }
  }

  /** Distinct ids render differently, so the groups and keys built from them are distinct. */
  lemma NatToStringInjective(a: nat, b: nat)
    ensures NatToString(a) == NatToString(b) ==> a == b
  {
    ParseNatToString(a);
    ParseNatToString(b);
  }

  /** Channel-layer group of one user's notification sockets: f"user_{id}". */
  function UserGroup(id: UserId): string {
    "user_" + NatToString(id)
  }

  /** Channel-layer group of one conversation: f"chat_{chat_id}", where chat_id is the URL segment. */
  function ChatGroup(route: string): string {
    "chat_" + route
  }

  /** Per-user groups and per-chat groups never collide, and each kind is injective. */
  lemma GroupsDistinct(a: UserId, b: UserId, r: string, q: string)
    ensures UserGroup(a) != ChatGroup(r)
    ensures UserGroup(a) == UserGroup(b) <==> a == b
    ensures ChatGroup(r) == ChatGroup(q) <==> r == q
  {
    assert UserGroup(a)[0] == 'u' && ChatGroup(r)[0] == 'c';
    NatToStringInjective(a, b);
    if UserGroup(a) == UserGroup(b) {
      assert NatToString(a) == UserGroup(a)[5..] == UserGroup(b)[5..] == NatToString(b);
    }
    if ChatGroup(r) == ChatGroup(q) {
      assert r == ChatGroup(r)[5..] == ChatGroup(q)[5..] == q;
    }
  }

  /** Occurrence test `c in s` on strings. */
  predicate Contains(s: string, c: char) {
    exists i :: 0 <= i < |s| && s[i] == c
  }

  /** `s.split(sep)[0]`: the text before the first `sep`, or all of `s`. */
  function BeforeFirst(s: string, sep: char): (r: string)
    ensures |r| <= |s| && r == s[..|r|]
    ensures !Contains(r, sep)
    ensures |r| < |s| ==> s[|r|] == sep
    ensures !Contains(s, sep) ==> r == s
  {
    if s == [] then []
    else if s[0] == sep then []
    else
      var rest := BeforeFirst(s[1..], sep);
      assert !Contains(s, sep) ==> !Contains(s[1..], sep) by {
        if Contains(s[1..], sep) {
          var i :| 0 <= i < |s[1..]| && s[1..][i] == sep;
          assert s[i + 1] == sep;
        }
      }
      assert !Contains([s[0]] + rest, sep) by {
        forall i | 0 <= i < |[s[0]] + rest| ensures ([s[0]] + rest)[i] != sep {
          if i > 0 { assert ([s[0]] + rest)[i] == rest[i - 1]; }
        }
      }
      [s[0]] + rest
  }

  // ---------------------------------------------------------------- str.strip()

  /** Python's `str.isspace` for one character: exactly the characters `str.strip()`
      removes from either end (DRF's `trim_whitespace` and Django's `normalize_email`). */
  predicate IsSpace(c: char) {
    || '\t' <= c <= '\r' || '\U{1C}' <= c <= ' ' || c == '\U{85}' || c == '\U{A0}' || c == '\U{1680}'
    || '\U{2000}' <= c <= '\U{200A}' || c == '\U{2028}' || c == '\U{2029}' || c == '\U{202F}'
    || c == '\U{205F}' || c == '\U{3000}'
  }

  predicate AllSpace(s: string) {
    forall i :: 0 <= i < |s| ==> IsSpace(s[i])
  }

  /** Neither end is whitespace: what `strip()` returns. */
  predicate Stripped(s: string) {
    s == [] || (!IsSpace(s[0]) && !IsSpace(s[|s| - 1]))
  }

  function TrimStart(s: string): (r: string)
    ensures |r| <= |s|
    ensures r == [] || !IsSpace(r[0])
  {
    if s != [] && IsSpace(s[0]) then TrimStart(s[1..]) else s
  }

  function TrimEnd(s: string): (r: string)
    ensures |r| <= |s|
    ensures r == [] || !IsSpace(r[|r| - 1])
    ensures r != [] ==> r[0] == s[0]
  {
    if s != [] && IsSpace(s[|s| - 1]) then TrimEnd(s[..|s| - 1]) else s
  }

  /** `TrimStart` cuts a run of whitespace from the front. */
  lemma {:induction false} TrimStartShape(s: string)
    ensures var r := TrimStart(s); r == s[|s| - |r|..] && AllSpace(s[..|s| - |r|])
    decreases |s|
  {
    if s != [] && IsSpace(s[0]) {
      var r := TrimStart(s[1..]);
      TrimStartShape(s[1..]);
      assert s[1..][|s| - 1 - |r|..] == s[|s| - |r|..];
      assert forall i :: 1 <= i < |s| - |r| ==> s[i] == s[1..][..|s| - 1 - |r|][i - 1];
    }
  }

  /** `TrimEnd` cuts a run of whitespace from the back. */
  lemma {:induction false} TrimEndShape(s: string)
    ensures var r := TrimEnd(s); r == s[..|r|] && AllSpace(s[|r|..])
    decreases |s|
  {
    if s != [] && IsSpace(s[|s| - 1]) {
      var r := TrimEnd(s[..|s| - 1]);
      TrimEndShape(s[..|s| - 1]);
      assert s[..|s| - 1][..|r|] == s[..|r|];
      assert forall i :: |r| <= i < |s| - 1 ==> s[i] == s[..|s| - 1][|r|..][i - |r|];
    }
  }

  /** The number of whitespace characters `strip()` removes from the front. */
  function LeadingSpaces(s: string): (n: nat)
    ensures n <= |s|
  {
    |s| - |TrimStart(s)|
  }

  /** `s.strip()`: the string without its leading and trailing whitespace. */
  function Trim(s: string): (r: string)
    ensures Stripped(r) && |r| <= |s|
  {
    TrimEnd(TrimStart(s))
  }

  /** What `strip()` cuts is whitespace, from either end and nothing else. */
  lemma {:induction false} TrimIsMiddle(s: string)
    ensures var k, r := LeadingSpaces(s), Trim(s);
            && k + |r| <= |s| && r == s[k..k + |r|]
            && AllSpace(s[..k]) && AllSpace(s[k + |r|..])
  {
    var t := TrimStart(s);
    var r := TrimEnd(t);
    var k := LeadingSpaces(s);
    TrimStartShape(s);
    TrimEndShape(t);
    assert s[k..][..|r|] == s[k..k + |r|];
    assert s[k + |r|..] == t[|r|..];
  }

  /** `strip()` gives the empty string exactly for all-whitespace text. */
  lemma {:induction false} TrimEmptyIffAllSpace(s: string)
    ensures Trim(s) == [] <==> AllSpace(s)
  {
    if AllSpace(s) {
      assert s == s + [] + [];
      TrimOfPadded(s, [], []);
    }
    if Trim(s) == [] {
      TrimIsMiddle(s);
      var k := LeadingSpaces(s);
      forall i | 0 <= i < |s| ensures IsSpace(s[i]) {
        if i < k {
          assert s[..k][i] == s[i];
        } else {
          assert s[k..][i - k] == s[i];
        }
      }
    }
  }

  lemma {:induction false} TrimStartPadded(a: string, u: string)
    requires AllSpace(a) && (u == [] || !IsSpace(u[0]))
    ensures TrimStart(a + u) == u
    decreases |a|
  {
    if a != [] {
      assert (a + u)[1..] == a[1..] + u;
      TrimStartPadded(a[1..], u);
    } else {
      assert a + u == u;
    }
  }

  lemma {:induction false} TrimEndPadded(u: string, b: string)
    requires AllSpace(b) && (u == [] || !IsSpace(u[|u| - 1]))
    ensures TrimEnd(u + b) == u
    decreases |b|
  {
    if b != [] {
      assert (u + b)[..|u + b| - 1] == u + b[..|b| - 1];
      TrimEndPadded(u, b[..|b| - 1]);
    } else {
      assert u + b == u;
    }
  }

  /** Stripping removes exactly the surrounding whitespace: together with `Trim`'s own
      contract this pins `Trim(s)` down as the one stripped core of `s`. */
  lemma {:induction false} TrimOfPadded(a: string, t: string, b: string)
    requires AllSpace(a) && AllSpace(b) && Stripped(t)
    ensures Trim(a + t + b) == t
  {
    if t == [] {
      assert a + t + b == (a + b) + [];
      assert AllSpace(a + b) by {
        forall i | 0 <= i < |a + b| ensures IsSpace((a + b)[i]) {
          if i >= |a| { assert (a + b)[i] == b[i - |a|]; }
        }
      }
      TrimStartPadded(a + b, []);
    } else {
      assert a + t + b == a + (t + b);
      TrimStartPadded(a, t + b);
      TrimEndPadded(t, b);
    }
  }

  /** Stripping twice is stripping once. */
  lemma TrimIdempotent(s: string)
    ensures Trim(Trim(s)) == Trim(s)
  {
    TrimOfPadded([], Trim(s), []);
    assert [] + Trim(s) + [] == Trim(s);
  }

  /** A subset is no larger than its superset. */
  lemma {:induction false} SubsetCard<T>(a: set<T>, b: set<T>)
    requires a <= b
    ensures |a| <= |b|
    decreases |b|
  {
    if a != {} {
      var x :| x in a;
      SubsetCard(a - {x}, b - {x});
    }
  }

  /** `m` is the smallest element of `xs`. */
  predicate IsMin(xs: set<nat>, m: nat) {
    m in xs && forall x :: x in xs ==> m <= x
  }

  lemma {:induction false} MinExists(xs: set<nat>)
    requires xs != {}
    ensures exists m :: IsMin(xs, m)
    decreases xs
  {
    var y :| y in xs;
    var rest := xs - {y};
    var m := y;
    if rest != {} {
      MinExists(rest);
      var k :| IsMin(rest, k);
      if k < y {
        m := k;
      }
    }
    forall x | x in xs ensures m <= x {
      if x != y {
        assert x in rest;
      }
    }
    assert IsMin(xs, m);
  }

  /** The smallest key of a non-empty set: the row the model picks where a query may match several. */
  function MinOf(xs: set<nat>): (m: nat)
    requires xs != {}
    ensures IsMin(xs, m)
  {
    MinExists(xs);
    var m :| IsMin(xs, m);
    m
  }

  /** The keys of a set in ascending order: the order in which an unordered queryset is
      iterated in the model. */
  function Ascending(xs: set<nat>): (r: seq<nat>)
    ensures |r| == |xs|
    ensures forall i :: 0 <= i < |r| ==> r[i] in xs
    ensures forall x :: x in xs ==> x in r
    ensures forall i, j :: 0 <= i < j < |r| ==> r[i] < r[j]
    decreases |xs|
  {
    if xs == {} then []
    else
      var m := MinOf(xs);
      var rest := Ascending(xs - {m});
      PrependMin(xs, m, rest);
      [m] + rest
  }

  /** Putting the minimum in front of the ascending rest gives the ascending whole. */
  lemma PrependMin(xs: set<nat>, m: nat, rest: seq<nat>)
    requires IsMin(xs, m)
    requires |rest| == |xs - {m}|
    requires forall i :: 0 <= i < |rest| ==> rest[i] in xs - {m}
    requires forall x :: x in xs - {m} ==> x in rest
    requires forall i, j :: 0 <= i < j < |rest| ==> rest[i] < rest[j]
    ensures |[m] + rest| == |xs|
    ensures forall i :: 0 <= i < |[m] + rest| ==> ([m] + rest)[i] in xs
    ensures forall x :: x in xs ==> x in [m] + rest
    ensures forall i, j :: 0 <= i < j < |[m] + rest| ==> ([m] + rest)[i] < ([m] + rest)[j]
  {
    var r := [m] + rest;
    forall i, j | 0 <= i < j < |r| ensures r[i] < r[j] {
      if i == 0 {
        assert r[j] == rest[j - 1] && r[j] in xs - {m};
      } else {
        assert r[i] == rest[i - 1] && r[j] == rest[j - 1];
      }
    }
  }
}
