/**
 * The toast list of the notification component: a `show-toast` event appends
 * a toast whose id is the current millisecond timestamp written in decimal,
 * and the timeout scheduled for it later removes every toast with that id.
 */
module Toasts {

  datatype Option<T> = None | Some(value: T)

  /** The three toast types. */
  datatype Kind = Success | Info | Error

  datatype Toast = Toast(id: string, message: string, kind: Kind)

  /** The type a toast gets: the event's own, or `'success'` when it has none. */
  function KindOrDefault(kind: Option<Kind>): (k: Kind)
    ensures kind.Some? ==> k == kind.value
    ensures kind.None? ==> k == Success
  {
    match kind
    case Some(given) => given
    case None => Success
  }

  /** The character of a decimal digit. */
  function DigitChar(d: nat): (ch: char)
    requires d < 10
    ensures '0' <= ch <= '9'
  {
    (('0' as int) + d) as char
  }

  /** The value of a decimal digit character. */
  function DigitValue(ch: char): (d: nat)
    requires '0' <= ch <= '9'
    ensures d < 10
  {
    ch as int - '0' as int
  }

  predicate AllDigits(s: string)
  {
    forall i :: 0 <= i < |s| ==> '0' <= s[i] <= '9'
  }

  /** `n.toString()` for a non-negative integer: its decimal digits, no leading zero. */
  function Decimal(n: nat): (s: string)
    ensures |s| >= 1 && AllDigits(s)
    ensures n >= 10 ==> s[0] != '0'
  {
    if n < 10 then [DigitChar(n)]
    else Decimal(n / 10) + [DigitChar(n % 10)]
  }

  /** Reads a string of decimal digits back as a number. */
  function DecimalValue(s: string): nat
    requires AllDigits(s)
  {
    if s == [] then 0
    else DecimalValue(s[..|s| - 1]) * 10 + DigitValue(s[|s| - 1])
  }

  /** Writing a timestamp in decimal loses nothing. */
  lemma {:induction false} DecimalRoundTrip(n: nat)
    ensures DecimalValue(Decimal(n)) == n
  {
    var s := Decimal(n);
    if n >= 10 {
      DecimalRoundTrip(n / 10);
      assert s[..|s| - 1] == Decimal(n / 10);
    }
  }

  /** The id of a toast created at millisecond `now` (`Date.now().toString()`). */
  function IdAt(now: nat): string
  {
    Decimal(now)
  }

  /** Toasts created in different milliseconds get different ids. */
  lemma IdsDistinct(t1: nat, t2: nat)
    ensures IdAt(t1) == IdAt(t2) <==> t1 == t2
  {
    DecimalRoundTrip(t1);
    DecimalRoundTrip(t2);
  }

  /** The toast a `show-toast` event creates at millisecond `now`. */
  function NewToast(message: string, kind: Option<Kind>, now: nat): (t: Toast)
    ensures t.id == IdAt(now) && t.message == message
    ensures t.kind == KindOrDefault(kind)
  {
    Toast(IdAt(now), message, KindOrDefault(kind))
  }

  /** The add-toast updater `prev => [...prev, toast]`. */
  function Appended(toasts: seq<Toast>, t: Toast): (r: seq<Toast>)
    ensures |r| == |toasts| + 1
    ensures r[..|toasts|] == toasts && r[|toasts|] == t
  {
    toasts + [t]
  }

  /** The expiry updater `prev => prev.filter(toast => toast.id !== id)`. */
  function Expired(toasts: seq<Toast>, id: string): (r: seq<Toast>)
    ensures |r| <= |toasts|
  {
    if toasts == [] then []
    else (if toasts[0].id != id then [toasts[0]] else []) + Expired(toasts[1..], id)
  }

  /** Expiry keeps a toast exactly when it was listed and its id differs. */
  lemma {:induction false} ExpiredMembers(toasts: seq<Toast>, id: string, t: Toast)
    ensures t in Expired(toasts, id) <==> t in toasts && t.id != id
  {
    if toasts != [] {
      ExpiredMembers(toasts[1..], id, t);
      assert toasts == [toasts[0]] + toasts[1..];
    }
  }

  /** Expiring an id no toast carries leaves the list unchanged. */
  lemma {:induction false} ExpiredAbsentId(toasts: seq<Toast>, id: string)
    requires forall t :: t in toasts ==> t.id != id
    ensures Expired(toasts, id) == toasts
  {
    if toasts != [] {
      ExpiredAbsentId(toasts[1..], id);
      assert toasts[0] in toasts;
      assert [toasts[0]] + toasts[1..] == toasts;
    }
  }

  /** Expiry works piece by piece, so the kept toasts stay in their original order. */
  lemma {:induction false} ExpiredConcat(a: seq<Toast>, b: seq<Toast>, id: string)
    ensures Expired(a + b, id) == Expired(a, id) + Expired(b, id)
  {
    if a == [] {
      assert a + b == b;
    } else {
      var head := if a[0].id != id then [a[0]] else [];
      ExpiredConcat(a[1..], b, id);
      assert (a + b)[0] == a[0];
      assert (a + b)[1..] == a[1..] + b;
      calc {
        Expired(a + b, id);
        head + Expired(a[1..] + b, id);
        head + (Expired(a[1..], id) + Expired(b, id));
        (head + Expired(a[1..], id)) + Expired(b, id);
        Expired(a, id) + Expired(b, id);
      }
    }
  }

  /** Expiring the same id twice is the same as expiring it once. */
  lemma {:induction false} ExpiredIdempotent(toasts: seq<Toast>, id: string)
    ensures Expired(Expired(toasts, id), id) == Expired(toasts, id)
  {
    if toasts != [] {
      ExpiredIdempotent(toasts[1..], id);
      var head := if toasts[0].id != id then [toasts[0]] else [];
      ExpiredConcat(head, Expired(toasts[1..], id), id);
    }
  }

  /** Expiry keeps exactly the toasts whose id differs, counted with multiplicity. */
  lemma {:induction false} ExpiredCounts(toasts: seq<Toast>, id: string, t: Toast)
    ensures multiset(Expired(toasts, id))[t] == if t.id == id then 0 else multiset(toasts)[t]
  {
    if toasts != [] {
      var rest := toasts[1..];
      var head := if toasts[0].id != id then [toasts[0]] else [];
      ExpiredCounts(rest, id, t);
      assert toasts == [toasts[0]] + rest;
      assert multiset(toasts)[t] == multiset([toasts[0]])[t] + multiset(rest)[t];
      assert Expired(toasts, id) == head + Expired(rest, id);
      assert multiset(Expired(toasts, id))[t] == multiset(head)[t] + multiset(Expired(rest, id))[t];
    }
  }

  /**
   * Two toasts shown in the same millisecond share an id, so the first of
   * their expiries removes both, while the toasts shown before are filtered
   * as usual.
   */
  lemma SameMillisecondExpiry(toasts: seq<Toast>, m1: string, k1: Option<Kind>,
                              m2: string, k2: Option<Kind>, now: nat)
    ensures Expired(Appended(Appended(toasts, NewToast(m1, k1, now)), NewToast(m2, k2, now)), IdAt(now))
         == Expired(toasts, IdAt(now))
  {
    var t1, t2 := NewToast(m1, k1, now), NewToast(m2, k2, now);
    ExpiredConcat(toasts, [t1], IdAt(now));
    ExpiredConcat(toasts + [t1], [t2], IdAt(now));
  }

  /** The component's `toasts` state. */
  class ToastList {
    var toasts: seq<Toast>

    constructor ()
      ensures toasts == []
    {
      toasts := [];
    }

    /**
     * A `show-toast` event at millisecond `now`: one toast appended at the
     * end. Returns the id whose expiry the component then schedules.
     */
    method Show(message: string, kind: Option<Kind>, now: nat) returns (id: string)
      modifies this
      ensures id == IdAt(now)
      ensures toasts == Appended(old(toasts), NewToast(message, kind, now))
    {
      id := IdAt(now);
      toasts := Appended(toasts, Toast(id, message, KindOrDefault(kind)));
    }

    /** The scheduled expiry of the toasts with id `id`. */
    method Expire(id: string)
      modifies this
      ensures toasts == Expired(old(toasts), id)
    {
      toasts := Expired(toasts, id);
    }
  }

  /**
   * Two `show-toast` events in the same millisecond, then the first expiry:
   * no toast is left on screen.
   */
  method SameMillisecondShows(now: nat) returns (remaining: nat)
    ensures remaining == 0
  {
    var list := new ToastList();
    var first := list.Show("Added to cart", None, now);
    var second := list.Show("Added to wishlist", Some(Info), now);
    list.Expire(first);
    SameMillisecondExpiry([], "Added to cart", None, "Added to wishlist", Some(Info), now);
    remaining := |list.toasts|;
  }
}
