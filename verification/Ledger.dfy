/** The record of one job: its partial-failure ledger and its phase lists. */
module Ledger {
  import opened Prelude

  datatype Entry = Entry(phase: string, item: string, attempts: int, lastError: string, outcome: string, retryable: bool, at: int)
  {
    function Key(): (string, string) {
      (phase, item)
    }
  }

  class Job {
    var ledger: seq<Entry>
    var completedPhases: seq<string>
    var skippedPhases: seq<string>

    constructor ()
      ensures ledger == [] && completedPhases == [] && skippedPhases == []
    {
      ledger, completedPhases, skippedPhases := [], [], [];
    }

    /** A repeated attempt at the same item overwrites its row, field by field. */
    method Append(e: Entry)
      modifies this`ledger
      ensures ledger == Put(old(ledger), e)
    {
      for i := 0 to |ledger|
        invariant ledger == old(ledger)
        invariant forall k :: 0 <= k < i ==> ledger[k].Key() != e.Key()
      {
        if ledger[i].phase == e.phase && ledger[i].item == e.item {
          var row := ledger[i].(attempts := e.attempts);
          row := row.(lastError := e.lastError);
          row := row.(outcome := e.outcome);
          row := row.(retryable := e.retryable);
          row := row.(at := e.at);
          PutOverwrites(ledger, e, i);
          ledger := ledger[i := row];
          return;
        }
      }
      PutAppends(ledger, e);
      ledger := ledger + [e];
    }

    method SkipPhase(phase: string)
      modifies this`skippedPhases
      ensures skippedPhases == Once(old(skippedPhases), phase)
    {
      for i := 0 to |skippedPhases|
        invariant phase !in skippedPhases[..i]
      {
        if skippedPhases[i] == phase {
          return;
        }
      }
      skippedPhases := skippedPhases + [phase];
    }

    method CompletePhase(phase: string)
      modifies this`completedPhases
      ensures completedPhases == Once(old(completedPhases), phase)
    {
      for i := 0 to |completedPhases|
        invariant phase !in completedPhases[..i]
      {
        if completedPhases[i] == phase {
          return;
        }
      }
      completedPhases := completedPhases + [phase];
    }
  }

  /** One entry put into rows kept one per key, in order of arrival. */
  function Put(rows: seq<Entry>, e: Entry): seq<Entry> {
    if rows == [] then [e]
    else if rows[0].Key() == e.Key() then [e] + rows[1..]
    else [rows[0]] + Put(rows[1..], e)
  }

  lemma {:induction false} PutOverwrites(rows: seq<Entry>, e: Entry, i: nat)
    requires i < |rows| && rows[i].Key() == e.Key()
    requires forall k :: 0 <= k < i ==> rows[k].Key() != e.Key()
    ensures Put(rows, e) == rows[i := e]
  {
    if i > 0 {
      PutOverwrites(rows[1..], e, i - 1);
      assert rows == [rows[0]] + rows[1..];
    }
  }

  lemma {:induction false} PutAppends(rows: seq<Entry>, e: Entry)
    requires forall k :: 0 <= k < |rows| ==> rows[k].Key() != e.Key()
    ensures Put(rows, e) == rows + [e]
  {
    if rows != [] {
      PutAppends(rows[1..], e);
      assert rows == [rows[0]] + rows[1..];
    }
  }

  /** The ledger after a whole run of appended entries. */
  function Rows(appended: seq<Entry>): seq<Entry> {
    if appended == [] then []
    else Put(Rows(appended[..|appended| - 1]), appended[|appended| - 1])
  }

  function Once<T(==)>(s: seq<T>, x: T): seq<T> {
    if x in s then s else s + [x]
  }

  /** The values of a sequence without repeats, in order of first occurrence. */
  function Firsts<T(==)>(s: seq<T>): seq<T> {
    if s == [] then [] else Once(Firsts(s[..|s| - 1]), s[|s| - 1])
  }

  function FirstIndex<T(==)>(s: seq<T>, x: T): (i: nat)
    requires x in s
    ensures i < |s| && s[i] == x && x !in s[..i]
  {
    if s[0] == x then 0
    else
      assert s == [s[0]] + s[1..];
      1 + FirstIndex(s[1..], x)
  }

  lemma {:induction false} FirstIndexOfFront<T>(s: seq<T>, last: T, x: T)
    requires x in s
    ensures x in s + [last] && FirstIndex(s + [last], x) == FirstIndex(s, x)
  {
    if s[0] != x {
      assert s == [s[0]] + s[1..] && (s + [last])[1..] == s[1..] + [last];
      FirstIndexOfFront(s[1..], last, x);
    }
  }

  /** No repeats, the same values, and the order of their first occurrences. */
  lemma {:induction false} FirstsInOrder<T>(s: seq<T>)
    ensures Distinct(Firsts(s)) && (forall i :: 0 <= i < |Firsts(s)| ==> Firsts(s)[i] in s)
    ensures forall x :: x in s ==> x in Firsts(s)
    ensures forall i, j :: 0 <= i < j < |Firsts(s)| ==> FirstIndex(s, Firsts(s)[i]) < FirstIndex(s, Firsts(s)[j])
  {
    if s != [] {
      var front, last := s[..|s| - 1], s[|s| - 1];
      FirstsInOrder(front);
      assert s == front + [last];
      forall i, j | 0 <= i < j < |Firsts(s)| ensures FirstIndex(s, Firsts(s)[i]) < FirstIndex(s, Firsts(s)[j]) {
        var f := Firsts(front);
        assert f[i] == Firsts(s)[i] && f[i] in front;
        FirstIndexOfFront(front, last, f[i]);
        if j < |f| {
          assert f[j] in front;
          FirstIndexOfFront(front, last, f[j]);
        } else {
          assert last !in front;
        }
      }
    }
  }

  function Keys(rows: seq<Entry>): (r: seq<(string, string)>)
    ensures |r| == |rows| && forall i :: 0 <= i < |r| ==> r[i] == rows[i].Key()
  {
    seq(|rows|, i requires 0 <= i < |rows| => rows[i].Key())
  }

  /** The entry last appended for a key. */
  function Latest(appended: seq<Entry>, key: (string, string)): Entry
    requires key in Keys(appended)
  {
    var e := appended[|appended| - 1];
    if e.Key() == key then e
    else
      assert appended == appended[..|appended| - 1] + [e];
      Latest(appended[..|appended| - 1], key)
  }

  lemma DistinctRest<T>(x: T, s: seq<T>)
    requires Distinct([x] + s)
    ensures Distinct(s) && x !in s
  {
    var w := [x] + s;
    forall i, j | 0 <= i < j < |s| ensures s[i] != s[j] {
      assert w[i + 1] != w[j + 1];
    }
    forall i | 0 <= i < |s| ensures s[i] != x {
      assert w[0] != w[i + 1];
    }
  }

  lemma OnceAfter<T>(y: T, s: seq<T>, x: T)
    requires x != y
    ensures Once([y] + s, x) == [y] + Once(s, x)
  {
    if x !in s {
      assert [y] + s + [x] == [y] + (s + [x]);
    }
  }

  lemma KeysOfFirst(x: Entry, rest: seq<Entry>)
    ensures Keys([x] + rest) == [x.Key()] + Keys(rest)
  {
  }

  lemma OnceAtFirst<T>(x: T, s: seq<T>)
    ensures Once([x] + s, x) == [x] + s
  {
    assert ([x] + s)[0] == x;
  }

  lemma {:induction false} PutKeys(rows: seq<Entry>, e: Entry)
    ensures Keys(Put(rows, e)) == Once(Keys(rows), e.Key())
  {
    if rows != [] {
      var first, rest := rows[0], rows[1..];
      assert rows == [first] + rest;
      KeysOfFirst(first, rest);
      if first.Key() == e.Key() {
        KeysOfFirst(e, rest);
        OnceAtFirst(e.Key(), Keys(rest));
      } else {
        PutKeys(rest, e);
        KeysOfFirst(first, Put(rest, e));
        OnceAfter(first.Key(), Keys(rest), e.Key());
      }
    }
  }

  lemma {:induction false} PutRows(rows: seq<Entry>, e: Entry, i: nat)
    requires Distinct(Keys(rows)) && i < |Put(rows, e)|
    ensures Put(rows, e)[i].Key() == e.Key() ==> Put(rows, e)[i] == e
    ensures Put(rows, e)[i].Key() != e.Key() ==> i < |rows| && Put(rows, e)[i] == rows[i]
  {
    if rows != [] {
      var rest := rows[1..];
      assert Keys(rows) == [rows[0].Key()] + Keys(rest);
      DistinctRest(rows[0].Key(), Keys(rest));
      if rows[0].Key() == e.Key() {
        assert i > 0 ==> Put(rows, e)[i].Key() == Keys(rest)[i - 1];
      } else if i > 0 {
        PutRows(rest, e, i - 1);
      }
    }
  }

  /** The ledger is an insertion-ordered map of everything appended: one row per
      key, keys in order of first occurrence, each row the entry last appended. */
  lemma {:induction false} RowsAreAnOrderedMap(appended: seq<Entry>)
    ensures Keys(Rows(appended)) == Firsts(Keys(appended))
    ensures Distinct(Keys(Rows(appended)))
    ensures forall i :: 0 <= i < |Rows(appended)| ==>
              Rows(appended)[i].Key() in Keys(appended) &&
              Rows(appended)[i] == Latest(appended, Rows(appended)[i].Key())
  {
    FirstsInOrder(Keys(appended));
    if appended != [] {
      var front, e := appended[..|appended| - 1], appended[|appended| - 1];
      RowsAreAnOrderedMap(front);
      assert appended == front + [e];
      assert Keys(appended) == Keys(front) + [e.Key()];
      assert Keys(appended)[..|appended| - 1] == Keys(front);
      PutKeys(Rows(front), e);
      var rows := Rows(appended);
      forall i | 0 <= i < |rows|
        ensures rows[i].Key() in Keys(appended) && rows[i] == Latest(appended, rows[i].Key())
      {
        assert Keys(rows)[i] == Firsts(Keys(appended))[i];
        PutRows(Rows(front), e, i);
      }
    }
  }
}
