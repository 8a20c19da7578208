/**
 Reconciling the device tokens a remote server believes it has registered with those the
 bouncer knows.  Apple tokens are compared up to letter case.
 */
module DeviceTokens {
  import Sums

  function LowerChar(c: char): char {
    if 'A' <= c <= 'Z' then (c as int + 32) as char else c
  }

  /** Case folding of tokens, which are hexadecimal. */
  function Lower(token: string): string {
    seq(|token|, i requires 0 <= i < |token| => LowerChar(token[i]))
  }

  /** The characters are one letter in its two cases. */
  predicate TwoCases(upper: char, lower: char) {
    'A' <= upper <= 'Z' && lower as int == upper as int + 32
  }

  /** Two tokens have one lowercase form exactly if they differ at most in the case of letters. */
  lemma LowerIs(s: string, t: string)
    ensures Lower(s) == Lower(t)
       <==> |s| == |t| && forall i :: 0 <= i < |s| ==> s[i] == t[i] || TwoCases(s[i], t[i]) || TwoCases(t[i], s[i])
  {
    if Lower(s) == Lower(t) {
      assert |Lower(s)| == |s| && |Lower(t)| == |t|;
      forall i | 0 <= i < |s| ensures s[i] == t[i] || TwoCases(s[i], t[i]) || TwoCases(t[i], s[i]) {
        assert Lower(s)[i] == Lower(t)[i];
      }
    }
  }

  /** The spelling kept for a lowercase form: the first in the list. */
  function Canonical(tokens: seq<string>, lower: string): (token: string)
    requires exists t :: t in tokens && Lower(t) == lower
    ensures token in tokens && Lower(token) == lower
    decreases |tokens|
  {
    if Lower(tokens[0]) == lower then tokens[0] else Canonical(tokens[1..], lower)
  }

  /** The tokens to remove: later spellings of a form already listed, and forms the bouncer does not know. */
  function Deleted(tokens: seq<string>, registered: set<string>): set<string> {
    set t | t in tokens && (t != Canonical(tokens, Lower(t)) || !Known(registered, Lower(t)))
  }

  predicate Known(registered: set<string>, lower: string) {
    exists r :: r in registered && Lower(r) == lower
  }

  function Survivors(tokens: seq<string>, registered: set<string>): set<string> {
    (set t | t in tokens) - Deleted(tokens, registered)
  }

  /** Apple token reconciliation: the survivors have distinct lowercase forms, all known, and every form
      both listed and known has exactly one survivor. */
  lemma OneSurvivorEach(tokens: seq<string>, registered: set<string>)
    ensures forall s, t :: s in Survivors(tokens, registered) && t in Survivors(tokens, registered) ==>
              (Lower(s) == Lower(t) ==> s == t)
    ensures forall s :: s in Survivors(tokens, registered) ==>
              s in tokens && exists r :: r in registered && Lower(r) == Lower(s)
    ensures forall t, r :: t in tokens && r in registered && Lower(r) == Lower(t) ==>
              exists s :: s in Survivors(tokens, registered) && Lower(s) == Lower(t)
  {
    forall t, r | t in tokens && r in registered && Lower(r) == Lower(t)
      ensures exists s :: s in Survivors(tokens, registered) && Lower(s) == Lower(t)
    {
      var s := Canonical(tokens, Lower(t));
      assert s in Survivors(tokens, registered);
    }
    forall s | s in Survivors(tokens, registered) ensures exists r :: r in registered && Lower(r) == Lower(s) {
      assert Known(registered, Lower(s));
    }
  }

  /** A second reconciliation of what survived removes nothing, in whatever order it is listed. */
  lemma SecondTimeNothing(tokens: seq<string>, registered: set<string>, again: seq<string>)
    requires forall t :: t in again ==> t in Survivors(tokens, registered)
    ensures Deleted(again, registered) == {}
  {
    OneSurvivorEach(tokens, registered);
  }

  lemma {:induction false} CanonicalOfMore(tokens: seq<string>, last: string, lower: string)
    requires exists t :: t in tokens + [last] && Lower(t) == lower
    ensures (exists t :: t in tokens && Lower(t) == lower) ==>
              Canonical(tokens + [last], lower) == Canonical(tokens, lower)
    ensures (forall t :: t in tokens ==> Lower(t) != lower) ==> Canonical(tokens + [last], lower) == last
    decreases |tokens|
  {
    if tokens != [] && Lower(tokens[0]) != lower {
      assert (tokens + [last])[1..] == tokens[1..] + [last];
      CanonicalOfMore(tokens[1..], last, lower);
    }
  }

  ghost predicate IsCanonical(canonical: map<string, string>, tokens: seq<string>) {
    && (forall l :: l in canonical <==> exists t :: t in tokens && Lower(t) == l)
    && (forall l :: l in canonical ==> canonical[l] == Canonical(tokens, l))
  }

  lemma CanonicalNext(canonical: map<string, string>, tokens: seq<string>, token: string)
    requires IsCanonical(canonical, tokens)
    ensures IsCanonical(if Lower(token) in canonical then canonical else canonical[Lower(token) := token],
              tokens + [token])
    ensures Lower(token) in canonical ==> canonical[Lower(token)] == Canonical(tokens + [token], Lower(token))
    ensures forall t :: t in tokens ==> Canonical(tokens + [token], Lower(t)) == Canonical(tokens, Lower(t))
  {
    assert token in tokens + [token];
    forall l | exists t :: t in tokens + [token] && Lower(t) == l
      ensures l in canonical ==> Canonical(tokens + [token], l) == canonical[l]
      ensures l !in canonical ==> l == Lower(token) && Canonical(tokens + [token], l) == token
    {
      CanonicalOfMore(tokens, token, l);
    }
    forall l | l in canonical ensures exists t :: t in tokens + [token] && Lower(t) == l {
      var t :| t in tokens && Lower(t) == l;
      assert t in tokens + [token];
    }
    forall t | t in tokens ensures Canonical(tokens + [token], Lower(t)) == Canonical(tokens, Lower(t)) {
      assert t in tokens + [token];
      CanonicalOfMore(tokens, token, Lower(t));
    }
  }

  // ------------------------------------------------------------------ sorting

  /** Strings in the order of their characters' codes. */
  predicate Less(a: string, b: string)
    decreases |a|
  {
    if a == [] || b == [] then a == [] && b != []
    else if a[0] != b[0] then a[0] < b[0]
    else Less(a[1..], b[1..])
  }

  lemma {:induction false} LessIsTotal(a: string, b: string)
    ensures Less(a, b) || Less(b, a) || a == b
    decreases |a|
  {
    if a != [] && b != [] && a[0] == b[0] {
      LessIsTotal(a[1..], b[1..]);
      assert a == [a[0]] + a[1..] && b == [b[0]] + b[1..];
    }
  }

  lemma {:induction false} LessIsTransitive(a: string, b: string, c: string)
    requires Less(a, b) && Less(b, c)
    ensures Less(a, c)
    decreases |a|
  {
    if a != [] && a[0] == b[0] && b[0] == c[0] {
      LessIsTransitive(a[1..], b[1..], c[1..]);
    }
  }

  /** One string is a proper beginning of the other, or smaller at the first character where they differ. */
  lemma {:induction false} LessIsLexicographic(a: string, b: string)
    ensures Less(a, b) <==>
              || a < b
              || exists i :: 0 <= i < |a| && i < |b| && a[..i] == b[..i] && a[i] < b[i]
    decreases |a|
  {
    if a != [] && b != [] {
      var x, y := a[1..], b[1..];
      assert a == [a[0]] + x && b == [b[0]] + y;
      forall i | 0 < i <= |a| && i <= |b| && a[..i] == b[..i] ensures a[0] == b[0] {
        assert a[..i][0] == b[..i][0];
      }
      if a[0] == b[0] {
        LessIsLexicographic(x, y);
        assert a < b <==> x < y;
        if i :| 0 <= i < |x| && i < |y| && x[..i] == y[..i] && x[i] < y[i] {
          assert a[..i + 1] == [a[0]] + x[..i] && b[..i + 1] == [b[0]] + y[..i];
          assert a[i + 1] < b[i + 1];
        }
        if i :| 0 <= i < |a| && i < |b| && a[..i] == b[..i] && a[i] < b[i] {
          assert i > 0;
          assert x[..i - 1] == a[..i][1..] && y[..i - 1] == b[..i][1..];
          assert x[i - 1] < y[i - 1];
        }
      } else {
        assert a[..0] == b[..0];
      }
    }
  }

  predicate Sorted(list: seq<string>) {
    forall i, j :: 0 <= i < j < |list| ==> Less(list[i], list[j])
  }

  /** sorted of a set: each element once, in order. */
  method SortedList(tokens: set<string>) returns (list: seq<string>)
    ensures Sorted(list) && forall t :: t in list <==> t in tokens
  {
    hide Less;
    list := [];
    var todo := tokens;
    while todo != {}
      invariant todo <= tokens && Sorted(list)
      invariant forall t :: t in list <==> t in tokens - todo
      decreases |todo|
    {
      ghost var some := Sums.SomeElement(todo);
      var t :| t in todo;
      assert t !in list;
      list := Insert(list, t);
      todo := todo - {t};
    }
  }

  method Insert(list: seq<string>, token: string) returns (longer: seq<string>)
    requires Sorted(list) && token !in list
    ensures Sorted(longer) && forall t :: t in longer <==> t in list || t == token
  {
    hide Less;
    var i := 0;
    while i < |list| && Less(list[i], token)
      invariant 0 <= i <= |list| && forall j :: 0 <= j < i ==> Less(list[j], token)
    {
      i := i + 1;
    }
    forall j | i <= j < |list| ensures Less(token, list[j]) {
      LessIsTotal(list[i], token);
      if i < j { LessIsTransitive(token, list[i], list[j]); }
    }
    longer := list[..i] + [token] + list[i..];
    assert list == list[..i] + list[i..];
  }

  /** get_deleted_devices: androidRegistered and appleRegistered are the tokens of this user and server. */
  method GetDeletedDevices(androidDevices: seq<string>, appleDevices: seq<string>,
                           androidRegistered: set<string>, appleRegistered: set<string>)
    returns (android: seq<string>, apple: seq<string>)
    ensures Sorted(android) && forall t :: t in android <==> t in androidDevices && t !in androidRegistered
    ensures Sorted(apple) && forall t :: t in apple <==> t in Deleted(appleDevices, appleRegistered)
  {
    hide Less;
    var canonicalCase: map<string, string> := map[];
    var toRemove: set<string> := {};
    var i := 0;
    while i < |appleDevices|
      invariant 0 <= i <= |appleDevices|
      invariant IsCanonical(canonicalCase, appleDevices[..i])
      invariant toRemove == set t | t in appleDevices[..i] && t != Canonical(appleDevices[..i], Lower(t))
    {
      var token := appleDevices[i];
      assert appleDevices[..i + 1] == appleDevices[..i] + [token];
      CanonicalNext(canonicalCase, appleDevices[..i], token);
      if Lower(token) !in canonicalCase {
        canonicalCase := canonicalCase[Lower(token) := token];
      } else if canonicalCase[Lower(token)] == token {
      } else {
        toRemove := toRemove + {token};
      }
      i := i + 1;
    }
    assert appleDevices[..i] == appleDevices;
    var have := set l | l in canonicalCase && Known(appleRegistered, l);
    toRemove := toRemove + set l | l in canonicalCase.Keys - have :: canonicalCase[l];
    assert toRemove == Deleted(appleDevices, appleRegistered);
    android := SortedList((set t | t in androidDevices) - androidRegistered);
    apple := SortedList(toRemove);
  }
}
