/**
 * The order in which batch sessions are listed: by start time, and sessions started together by their id.
 */
module SessionList {
  import opened Prelude
  import opened BatchSession

  /** Texts in the order of their characters. */
  predicate TextBefore(a: string, b: string) {
    b != "" && (a == "" || a[0] < b[0] || (a[0] == b[0] && TextBefore(a[1..], b[1..])))
  }

  /** The texts agree up to some place; there the one ends, or has the smaller character. */
  ghost predicate DiffersBelow(a: string, b: string, k: nat) {
    && k <= |a| && k < |b| && a[..k] == b[..k] && (k < |a| ==> a[k] < b[k])
  }

  lemma {:induction false} TextBeforeMeans(a: string, b: string)
    ensures TextBefore(a, b) <==> exists k :: DiffersBelow(a, b, k)
  {
    if a == "" || b == "" || a[0] != b[0] {
      assert TextBefore(a, b) ==> DiffersBelow(a, b, 0);
      forall k: nat | DiffersBelow(a, b, k)
        ensures k == 0
      {
        if k > 0 {
          SameStart(a, b, k);
        }
      }
    } else {
      TextBeforeMeans(a[1..], b[1..]);
      forall k: nat | DiffersBelow(a[1..], b[1..], k)
        ensures DiffersBelow(a, b, k + 1)
      {
        assert a[..k + 1] == [a[0]] + a[1..][..k] && b[..k + 1] == [b[0]] + b[1..][..k];
      }
      forall k: nat | DiffersBelow(a, b, k)
        ensures k > 0
        ensures DiffersBelow(a[1..], b[1..], k - 1)
      {
        assert k > 0;
        assert a[1..][..k - 1] == a[..k][1..] && b[1..][..k - 1] == b[..k][1..];
      }
    }
  }

  lemma SameStart(a: string, b: string, k: nat)
    requires DiffersBelow(a, b, k) && k > 0
    ensures a != "" && b != "" && a[0] == b[0]
  {
    assert a[..k][0] == b[..k][0];
  }

  lemma {:induction false} TextsAreOrdered(a: string, b: string)
    ensures a == b ==> !TextBefore(a, b)
    ensures a != b ==> (TextBefore(a, b) <==> !TextBefore(b, a))
  {
    if a != "" && b != "" {
      TextsAreOrdered(a[1..], b[1..]);
      assert a == [a[0]] + a[1..] && b == [b[0]] + b[1..];
    }
  }

  lemma {:induction false} TextOrderIsTransitive(a: string, b: string, c: string)
    requires TextBefore(a, b) && TextBefore(b, c)
    ensures TextBefore(a, c)
  {
    if a != "" && a[0] == b[0] == c[0] {
      TextOrderIsTransitive(a[1..], b[1..], c[1..]);
    }
  }

  predicate Earlier(a: Session, b: Session) {
    a.startedAt < b.startedAt || (a.startedAt == b.startedAt && TextBefore(a.id, b.id))
  }

  lemma EarlierIsOrder(a: Session, b: Session, c: Session)
    ensures a.id != b.id ==> (Earlier(a, b) <==> !Earlier(b, a))
    ensures Earlier(a, b) && Earlier(b, c) ==> Earlier(a, c)
  {
    TextsAreOrdered(a.id, b.id);
    if TextBefore(a.id, b.id) && TextBefore(b.id, c.id) {
      TextOrderIsTransitive(a.id, b.id, c.id);
    }
  }

  /** Strictly ascending, so no session is listed twice. */
  ghost predicate InOrder(sessions: seq<Session>) {
    forall i, j :: 0 <= i < j < |sessions| ==> Earlier(sessions[i], sessions[j])
  }

  ghost predicate DistinctIds(sessions: seq<Session>) {
    forall i, j :: 0 <= i < j < |sessions| ==> sessions[i].id != sessions[j].id
  }

  function Insert(sessions: seq<Session>, s: Session): seq<Session> {
    if sessions == [] || Earlier(s, sessions[0]) then [s] + sessions
    else [sessions[0]] + Insert(sessions[1..], s)
  }

  /** The listing in order. */
  function Ordered(sessions: seq<Session>): seq<Session> {
    if sessions == [] then [] else Insert(Ordered(sessions[1..]), sessions[0])
  }

  lemma {:induction false} InsertHas(sessions: seq<Session>, s: Session)
    ensures |Insert(sessions, s)| == |sessions| + 1
    ensures forall x :: x in Insert(sessions, s) <==> x == s || x in sessions
  {
    if sessions != [] && !Earlier(s, sessions[0]) {
      InsertHas(sessions[1..], s);
      assert sessions == [sessions[0]] + sessions[1..];
    }
  }

  lemma {:induction false} InsertInOrder(sessions: seq<Session>, s: Session)
    requires InOrder(sessions) && forall x :: x in sessions ==> x.id != s.id
    ensures InOrder(Insert(sessions, s))
  {
    var after := Insert(sessions, s);
    if sessions == [] {
    } else if Earlier(s, sessions[0]) {
      forall i | 0 <= i < |sessions|
        ensures Earlier(s, sessions[i])
      {
        EarlierIsOrder(s, sessions[0], sessions[i]);
      }
    } else {
      InsertInOrder(sessions[1..], s);
      InsertHas(sessions[1..], s);
      EarlierIsOrder(s, sessions[0], s);
      forall x | x in Insert(sessions[1..], s)
        ensures Earlier(sessions[0], x)
      {
        assert x == s || x in sessions[1..];
      }
      forall j | 0 < j < |after|
        ensures Earlier(after[0], after[j])
      {
        assert after[j] == Insert(sessions[1..], s)[j - 1];
      }
    }
  }

  /** Sorting keeps every session and leaves them in order. */
  lemma {:induction false} OrderedIsSorted(sessions: seq<Session>)
    requires DistinctIds(sessions)
    ensures InOrder(Ordered(sessions)) && |Ordered(sessions)| == |sessions|
    ensures forall x :: x in Ordered(sessions) <==> x in sessions
  {
    if sessions != [] {
      var rest := sessions[1..];
      OrderedIsSorted(rest);
      InsertHas(Ordered(rest), sessions[0]);
      forall x | x in Ordered(rest)
        ensures x.id != sessions[0].id
      {
        assert x in rest;
      }
      InsertInOrder(Ordered(rest), sessions[0]);
      assert sessions == [sessions[0]] + rest;
    }
  }
}
