/** Validate: every problem of a configuration, collected in one pass over each
    list. What is asked of a single entry is a parameter. */
module Validation {
  import opened Prelude
  import opened ConfigModel

  datatype Part = Environments | StorageList | Keys

  datatype Problem =
    | InEntry(part: Part, i: nat, message: string)
    | SameName(part: Part, i: nat, previous: nat)
    | Defaults(count: nat)

  /** The problems of one entry by itself. */
  datatype Checks = Checks(environment: Entry -> seq<string>, storage: Entry -> seq<string>, key: Key -> seq<string>)

  /** An entry without a name is a problem, whatever it is of. */
  ghost predicate NameIsNeeded(checks: Checks) {
    && (forall e :: checks.environment(e) == [] ==> e.name != "")
    && (forall e :: checks.storage(e) == [] ==> e.name != "")
    && (forall k :: checks.key(k) == [] ==> k.name != "")
  }

  ghost predicate NamesDifferBelow(names: seq<string>, n: nat)
    requires n <= |names|
  {
    forall i, j :: 0 <= i < j < n && names[i] != "" ==> names[i] != names[j]
  }

  ghost predicate NamesDiffer(names: seq<string>) {
    NamesDifferBelow(names, |names|)
  }

  /** No item of a list has a problem by itself. */
  ghost predicate AllFine<T>(items: seq<T>, check: T -> seq<string>) {
    forall i :: 0 <= i < |items| ==> check(items[i]) == []
  }

  ghost predicate EntriesAreFine(c: Config, checks: Checks) {
    AllFine(c.environments, checks.environment) && AllFine(c.storage, checks.storage) && AllFine(c.keys, checks.key)
  }

  ghost predicate WellFormed(c: Config, checks: Checks) {
    && EntriesAreFine(c, checks)
    && NamesDiffer(EntryNames(c.environments)) && NamesDiffer(EntryNames(c.storage)) && NamesDiffer(KeyNames(c.keys))
    && AtMostOneDefault(c.storage)
  }

  function Worded(part: Part, i: nat, messages: seq<string>): (r: seq<Problem>)
    ensures |r| == |messages| && forall k :: 0 <= k < |r| ==> r[k] == InEntry(part, i, messages[k])
  {
    Map((m: string) => InEntry(part, i, m), messages)
  }

  /** The last place below n a name stands at, or -1. */
  function LastBefore(names: seq<string>, n: nat, name: string): (j: int)
    requires n <= |names|
    ensures -1 <= j < n && (0 <= j ==> names[j] == name)
    ensures forall k :: j < k < n ==> names[k] != name
  {
    if n == 0 then -1 else if names[n - 1] == name then n - 1 else LastBefore(names, n - 1, name)
  }

  /** The name at n, if it is one and stands there again. */
  function Again(part: Part, names: seq<string>, n: nat): seq<Problem>
    requires n < |names|
  {
    var j := LastBefore(names, n, names[n]);
    if names[n] != "" && 0 <= j then [SameName(part, n, j)] else []
  }

  /** The problems of the first n entries of a list. */
  function ListProblems(part: Part, names: seq<string>, messages: seq<seq<string>>, n: nat): seq<Problem>
    requires n <= |names| == |messages|
  {
    if n == 0 then []
    else ListProblems(part, names, messages, n - 1) + Worded(part, n - 1, messages[n - 1]) + Again(part, names, n - 1)
  }

  /** The map knows, of every name below n, the last place it stands at. */
  ghost predicate KnowsLast(names: seq<string>, n: nat, seen: map<string, nat>)
    requires n <= |names|
  {
    forall name :: name != "" ==>
      if LastBefore(names, n, name) < 0 then name !in seen else name in seen && seen[name] == LastBefore(names, n, name)
  }

  lemma KnowsOneMore(names: seq<string>, n: nat, seen: map<string, nat>)
    requires n < |names| && KnowsLast(names, n, seen) && names[n] != ""
    ensures KnowsLast(names, n + 1, seen[names[n] := n])
  {
  }

  lemma KnowsNoMore(names: seq<string>, n: nat, seen: map<string, nat>)
    requires n < |names| && KnowsLast(names, n, seen) && names[n] == ""
    ensures KnowsLast(names, n + 1, seen)
  {
  }

  lemma KnowsAgain(part: Part, names: seq<string>, n: nat, seen: map<string, nat>)
    requires n < |names| && KnowsLast(names, n, seen)
    ensures Again(part, names, n) ==
            if names[n] != "" && names[n] in seen then [SameName(part, n, seen[names[n]])] else []
  {
  }

  lemma OneMoreProblem(part: Part, names: seq<string>, messages: seq<seq<string>>, n: nat)
    requires n < |names| == |messages|
    ensures ListProblems(part, names, messages, n + 1) ==
            ListProblems(part, names, messages, n) + Worded(part, n, messages[n]) + Again(part, names, n)
  {
  }

  /** One list: the problems of its entries, and every name that stands there twice. */
  method CheckList(part: Part, names: seq<string>, messages: seq<seq<string>>) returns (problems: seq<Problem>)
    requires |messages| == |names|
    ensures problems == ListProblems(part, names, messages, |names|)
  {
    problems := [];
    var seen: map<string, nat> := map[];
    for n := 0 to |names|
      invariant KnowsLast(names, n, seen)
      invariant problems == ListProblems(part, names, messages, n)
    {
      var again := [];
      KnowsAgain(part, names, n, seen);
      if names[n] != "" {
        if names[n] in seen {
          again := [SameName(part, n, seen[names[n]])];
        }
        KnowsOneMore(names, n, seen);
        seen := seen[names[n] := n];
      } else {
        KnowsNoMore(names, n, seen);
      }
      OneMoreProblem(part, names, messages, n);
      problems := problems + Worded(part, n, messages[n]) + again;
    }
  }

  /** A list has no problem exactly when none of its entries has, and no name that
      is one stands in it twice. */
  lemma {:induction false} NoListProblems(part: Part, names: seq<string>, messages: seq<seq<string>>, n: nat)
    requires n <= |names| == |messages|
    ensures ListProblems(part, names, messages, n) == [] <==>
            NothingBelow(messages, n) && NamesDifferBelow(names, n)
  {
    if n > 0 {
      var m := n - 1;
      NoListProblems(part, names, messages, m);
      NoneAgain(part, names, m);
      OneMoreEntry(part, names, messages, m);
      UpToOneMore(messages, m);
      assert n == m + 1;
    }
  }

  lemma OneMoreEntry(part: Part, names: seq<string>, messages: seq<seq<string>>, n: nat)
    requires n < |names| == |messages|
    ensures ListProblems(part, names, messages, n + 1) == [] <==>
            ListProblems(part, names, messages, n) == [] && messages[n] == [] && Again(part, names, n) == []
  {
    NothingOfThree(ListProblems(part, names, messages, n), Worded(part, n, messages[n]), Again(part, names, n));
    assert Worded(part, n, messages[n]) == [] <==> messages[n] == [];
  }

  ghost predicate NothingBelow(messages: seq<seq<string>>, n: nat)
    requires n <= |messages|
  {
    forall i :: 0 <= i < n ==> messages[i] == []
  }

  lemma UpToOneMore(messages: seq<seq<string>>, n: nat)
    requires n < |messages|
    ensures NothingBelow(messages, n + 1) <==> NothingBelow(messages, n) && messages[n] == []
  {
  }

  lemma NothingOfThree(a: seq<Problem>, b: seq<Problem>, c: seq<Problem>)
    ensures a + b + c == [] <==> a == [] && b == [] && c == []
  {
    assert |a + b + c| == |a| + |b| + |c|;
  }

  lemma NoneAgain(part: Part, names: seq<string>, n: nat)
    requires n < |names|
    ensures NamesDifferBelow(names, n + 1) <==> NamesDifferBelow(names, n) && Again(part, names, n) == []
  {
  }

  function DefaultsIn(es: seq<Entry>): nat {
    if es == [] then 0 else DefaultsIn(es[..|es| - 1]) + if es[|es| - 1].isDefault then 1 else 0
  }

  lemma {:induction false} DefaultsAreCounted(es: seq<Entry>)
    ensures DefaultsIn(es) == 0 <==> !SomeDefault(es)
    ensures DefaultsIn(es) <= 1 <==> AtMostOneDefault(es)
  {
    if es != [] {
      var front := es[..|es| - 1];
      DefaultsAreCounted(front);
      assert forall i :: 0 <= i < |front| ==> front[i] == es[i];
      if SomeDefault(front) {
        var i :| 0 <= i < |front| && front[i].isDefault;
        assert es[i].isDefault;
      }
      if AtMostOneDefault(es) && es[|es| - 1].isDefault {
        assert !SomeDefault(front);
      }
    }
  }

  function Messages<T>(check: T -> seq<string>, items: seq<T>): (r: seq<seq<string>>)
    ensures |r| == |items| && forall i :: 0 <= i < |r| ==> r[i] == check(items[i])
  {
    Map(check, items)
  }

  function EntryProblems(part: Part, es: seq<Entry>, check: Entry -> seq<string>): seq<Problem> {
    ListProblems(part, EntryNames(es), Messages(check, es), |es|)
  }

  function KeyProblems(ks: seq<Key>, check: Key -> seq<string>): seq<Problem> {
    ListProblems(Keys, KeyNames(ks), Messages(check, ks), |ks|)
  }

  function DefaultProblems(es: seq<Entry>): seq<Problem> {
    if DefaultsIn(es) > 1 then [Defaults(DefaultsIn(es))] else []
  }

  function Problems(c: Config, checks: Checks): seq<Problem> {
    EntryProblems(Environments, c.environments, checks.environment) + EntryProblems(StorageList, c.storage, checks.storage)
    + DefaultProblems(c.storage) + KeyProblems(c.keys, checks.key)
  }

  method CountDefaults(es: seq<Entry>) returns (defaults: nat)
    ensures defaults == DefaultsIn(es)
  {
    defaults := 0;
    for i := 0 to |es|
      invariant defaults == DefaultsIn(es[..i])
    {
      assert es[..i + 1][..i] == es[..i];
      if es[i].isDefault {
        defaults := defaults + 1;
      }
    }
    assert es[..|es|] == es;
  }

  method CheckEntries(part: Part, es: seq<Entry>, check: Entry -> seq<string>) returns (problems: seq<Problem>)
    ensures problems == EntryProblems(part, es, check)
  {
    problems := CheckList(part, EntryNames(es), Messages(check, es));
  }

  method CheckKeys(ks: seq<Key>, check: Key -> seq<string>) returns (problems: seq<Problem>)
    ensures problems == KeyProblems(ks, check)
  {
    problems := CheckList(Keys, KeyNames(ks), Messages(check, ks));
  }

  method CheckDefaults(es: seq<Entry>) returns (problems: seq<Problem>)
    ensures problems == DefaultProblems(es)
  {
    var defaults := CountDefaults(es);
    problems := if defaults > 1 then [Defaults(defaults)] else [];
  }

  /** Every problem of the configuration, list by list. */
  method Validate(c: Config, checks: Checks) returns (problems: seq<Problem>)
    ensures problems == Problems(c, checks)
    ensures problems == [] <==> WellFormed(c, checks)
  {
    var environments := CheckEntries(Environments, c.environments, checks.environment);
    var storage := CheckEntries(StorageList, c.storage, checks.storage);
    var defaults := CheckDefaults(c.storage);
    var keys := CheckKeys(c.keys, checks.key);
    problems := environments + storage + defaults + keys;
    NoProblems(c, checks);
  }

  /** There is no problem exactly when the configuration is well formed. */
  lemma NoProblems(c: Config, checks: Checks)
    ensures Problems(c, checks) == [] <==> WellFormed(c, checks)
  {
    Collected(EntryProblems(Environments, c.environments, checks.environment), EntryProblems(StorageList, c.storage, checks.storage),
              DefaultProblems(c.storage), KeyProblems(c.keys, checks.key));
    NoEntryProblems(Environments, c.environments, checks.environment);
    NoEntryProblems(StorageList, c.storage, checks.storage);
    NoKeyProblems(c.keys, checks.key);
    NoDefaultProblems(c.storage);
  }

  lemma NoMessages<T>(items: seq<T>, check: T -> seq<string>)
    ensures NothingBelow(Messages(check, items), |items|) <==> AllFine(items, check)
  {
    forall i | 0 <= i < |items| ensures Messages(check, items)[i] == check(items[i]) {
    }
  }

  lemma NoEntryProblems(part: Part, es: seq<Entry>, check: Entry -> seq<string>)
    ensures EntryProblems(part, es, check) == [] <==> AllFine(es, check) && NamesDiffer(EntryNames(es))
  {
    NoListProblems(part, EntryNames(es), Messages(check, es), |es|);
    NoMessages(es, check);
  }

  lemma NoKeyProblems(ks: seq<Key>, check: Key -> seq<string>)
    ensures KeyProblems(ks, check) == [] <==> AllFine(ks, check) && NamesDiffer(KeyNames(ks))
  {
    NoListProblems(Keys, KeyNames(ks), Messages(check, ks), |ks|);
    NoMessages(ks, check);
  }

  lemma NoDefaultProblems(es: seq<Entry>)
    ensures DefaultProblems(es) == [] <==> AtMostOneDefault(es)
  {
    DefaultsAreCounted(es);
  }

  lemma Collected(a: seq<Problem>, b: seq<Problem>, c: seq<Problem>, d: seq<Problem>)
    ensures a + b + c + d == [] <==> a == [] && b == [] && c == [] && d == []
  {
    assert |a + b + c + d| == |a| + |b| + |c| + |d|;
  }

  // ------------------------------------------------------- what each problem says

  /** A message of the entry at i; or that the name at i stands before it too, last at j. */
  ghost predicate IsListProblem(part: Part, names: seq<string>, messages: seq<seq<string>>, p: Problem)
    requires |messages| == |names|
  {
    match p
    case InEntry(q, i, m) => q == part && i < |names| && m in messages[i]
    case SameName(q, i, j) =>
      q == part && j < i < |names| && names[i] != "" && names[i] == names[j] && forall k :: j < k < i ==> names[k] != names[i]
    case Defaults(_) => false
  }

  lemma WordedTold(part: Part, i: nat, messages: seq<string>, p: Problem)
    ensures p in Worded(part, i, messages) <==> p.InEntry? && p.part == part && p.i == i && p.message in messages
  {
    if p.InEntry? && p.part == part && p.i == i && p.message in messages {
      var k :| 0 <= k < |messages| && messages[k] == p.message;
      assert Worded(part, i, messages)[k] == p;
    }
  }

  lemma AgainTold(part: Part, names: seq<string>, messages: seq<seq<string>>, n: nat, p: Problem)
    requires n < |names| == |messages|
    ensures p in Again(part, names, n) <==> p.SameName? && p.i == n && IsListProblem(part, names, messages, p)
  {
  }

  lemma {:induction false} ListProblemsTold(part: Part, names: seq<string>, messages: seq<seq<string>>, n: nat, p: Problem)
    requires n <= |names| == |messages|
    ensures p in ListProblems(part, names, messages, n) <==> IsListProblem(part, names, messages, p) && p.i < n
  {
    if n > 0 {
      var m := n - 1;
      ListProblemsTold(part, names, messages, m, p);
      OneMoreProblem(part, names, messages, m);
      InOneOfThree(ListProblems(part, names, messages, m), Worded(part, m, messages[m]), Again(part, names, m), p);
      WordedTold(part, m, messages[m], p);
      AgainTold(part, names, messages, m, p);
    }
  }

  lemma InOneOfThree(a: seq<Problem>, b: seq<Problem>, c: seq<Problem>, p: Problem)
    ensures p in a + b + c <==> p in a || p in b || p in c
  {
  }

  lemma {:induction false} DefaultsAreTheMarked(es: seq<Entry>)
    ensures DefaultsIn(es) == |Filter(es, (e: Entry) => e.isDefault)|
  {
    if es != [] {
      DefaultsAreTheMarked(es[..|es| - 1]);
    }
  }

  /** What may be said of a configuration: a message of one of its entries; a name that
      stands again, with the last place before it; how many storages are marked default,
      when they are more than one. */
  ghost predicate IsProblem(c: Config, checks: Checks, p: Problem) {
    || IsListProblem(Environments, EntryNames(c.environments), Messages(checks.environment, c.environments), p)
    || IsListProblem(StorageList, EntryNames(c.storage), Messages(checks.storage, c.storage), p)
    || IsListProblem(Keys, KeyNames(c.keys), Messages(checks.key, c.keys), p)
    || (p.Defaults? && p.count == |Filter(c.storage, (e: Entry) => e.isDefault)| > 1)
  }

  /** That much is said of it, and nothing else. */
  lemma ProblemsAreTold(c: Config, checks: Checks, p: Problem)
    ensures p in Problems(c, checks) <==> IsProblem(c, checks, p)
  {
    var environments, storage := EntryProblems(Environments, c.environments, checks.environment), EntryProblems(StorageList, c.storage, checks.storage);
    InOneOfThree(environments, storage, DefaultProblems(c.storage), p);
    InOneOfThree(environments + storage + DefaultProblems(c.storage), KeyProblems(c.keys, checks.key), [], p);
    assert environments + storage + DefaultProblems(c.storage) + KeyProblems(c.keys, checks.key) + [] == Problems(c, checks);
    ListProblemsTold(Environments, EntryNames(c.environments), Messages(checks.environment, c.environments), |c.environments|, p);
    ListProblemsTold(StorageList, EntryNames(c.storage), Messages(checks.storage, c.storage), |c.storage|, p);
    ListProblemsTold(Keys, KeyNames(c.keys), Messages(checks.key, c.keys), |c.keys|, p);
    DefaultsAreTheMarked(c.storage);
  }

  /** A well-formed configuration has truly distinct names, for no name is empty. */
  lemma WellFormedIsUnique(c: Config, checks: Checks)
    requires NameIsNeeded(checks) && EntriesAreFine(c, checks)
    ensures WellFormed(c, checks) <==> NamesAreUnique(c) && AtMostOneDefault(c.storage)
  {
  }

  /** An edit of a well-formed configuration is never refused for a name or for the
      default, only for what an entry says by itself. */
  lemma EditIsRefusedOnlyForAnEntry(c: Config, e: Edit, checks: Checks)
    requires NameIsNeeded(checks) && WellFormed(c, checks) && Edited(c, e).Done?
    ensures WellFormed(Edited(c, e).value, checks) <==> EntriesAreFine(Edited(c, e).value, checks)
  {
    WellFormedIsUnique(c, checks);
    EditKeepsNames(c, e);
    EditKeepsDefaults(c, e);
    if EntriesAreFine(Edited(c, e).value, checks) {
      WellFormedIsUnique(Edited(c, e).value, checks);
    }
  }
}
