/** Sorting an export directory's file names into the realm file, the user files
    in numeric order, and everything else in text order. */
module ReadLayout {
  import opened Prelude
  import opened Decimal
  import opened ExportLayout

  datatype FileKind = RealmFile | UserFile(n: nat) | OtherFile

  /** The three cases of the classification, tried in this order. The number of
      a user file is what `Atoi` reports even when it also reports an error. */
  function Classify(realm: string, name: string): FileKind {
    var base := PathBase(name);
    if base == realm + "-realm.json" || base == realm + ".json" then RealmFile
    else
      match MatchUserFile(base)
      case Some((_, digits)) =>
        MatchIsTheShape(base, MatchUserFile(base).value.0, digits);
        UserFile(Atoi(digits).0)
      case None => OtherFile
  }

  // ------------------------------------------------------ what is taken for what

  /** The base is one of the two names a realm file may have. */
  predicate IsRealmName(realm: string, name: string) {
    var base := PathBase(name);
    base == realm + "-realm.json" || base == realm + ".json"
  }

  /** Of the others, the base is a prefix on one line, the marker and digits. */
  ghost predicate IsUserName(realm: string, name: string) {
    !IsRealmName(realm, name) && exists prefix, digits :: UserFileShape(PathBase(name), prefix, digits)
  }

  /** The number of a page: what its digits spell, or the greatest int past that. */
  function PageNumber(digits: string): nat
    requires AllDigits(digits)
  {
    if Value(digits) <= 0x7fff_ffff_ffff_ffff then Value(digits) else 0x7fff_ffff_ffff_ffff
  }

  /** The first of two user files has no greater number than the second. */
  ghost predicate InPageOrder(a: string, b: string) {
    forall p, d, q, e :: UserFileShape(PathBase(a), p, d) && UserFileShape(PathBase(b), q, e) ==> PageNumber(d) <= PageNumber(e)
  }

  lemma WhatAFileIs(realm: string, name: string)
    ensures var kind := Classify(realm, name);
            (kind.RealmFile? <==> IsRealmName(realm, name)) && (kind.UserFile? <==> IsUserName(realm, name))
            && (kind.OtherFile? <==> !IsRealmName(realm, name) && !IsUserName(realm, name))
  {
    var base := PathBase(name);
    if MatchUserFile(base).Some? {
      var (prefix, digits) := MatchUserFile(base).value;
      MatchIsTheShape(base, prefix, digits);
    }
    forall prefix, digits | UserFileShape(base, prefix, digits) ensures MatchUserFile(base).Some? {
      MatchIsTheShape(base, prefix, digits);
    }
  }

  lemma WhatNumberItHas(realm: string, name: string, prefix: string, digits: string)
    requires Classify(realm, name).UserFile? && UserFileShape(PathBase(name), prefix, digits)
    ensures Number(realm, name) == PageNumber(digits)
  {
    MatchIsTheShape(PathBase(name), prefix, digits);
  }

  lemma NumbersInOrder(realm: string, a: string, b: string)
    requires Classify(realm, a).UserFile? && Classify(realm, b).UserFile? && Number(realm, a) <= Number(realm, b)
    ensures InPageOrder(a, b)
  {
    forall p, d, q, e | UserFileShape(PathBase(a), p, d) && UserFileShape(PathBase(b), q, e) ensures PageNumber(d) <= PageNumber(e) {
      WhatNumberItHas(realm, a, p, d);
      WhatNumberItHas(realm, b, q, e);
    }
  }

  lemma {:induction false} FilteredAlike<T>(s: seq<T>, keep: T -> bool, also: T -> bool)
    requires forall i :: 0 <= i < |s| ==> keep(s[i]) == also(s[i])
    ensures Filter(s, keep) == Filter(s, also)
  {
    if s != [] {
      FilteredAlike(s[..|s| - 1], keep, also);
    }
  }

  lemma {:induction false} FilteredHolds<T>(s: seq<T>, keep: T -> bool, x: T)
    ensures x in Filter(s, keep) <==> x in s && keep(x)
  {
    if s != [] {
      FilteredHolds(s[..|s| - 1], keep, x);
      assert s == s[..|s| - 1] + [s[|s| - 1]];
    }
  }

  /** The three groups, told by the names alone. */
  lemma GroupsAreTold(realm: string, names: seq<string>)
    ensures OfRealm(realm, names) == Filter(names, name => IsRealmName(realm, name))
    ensures OfUsers(realm, names) == Filter(names, name => IsUserName(realm, name))
    ensures OfOthers(realm, names) == Filter(names, name => !IsRealmName(realm, name) && !IsUserName(realm, name))
  {
    forall i | 0 <= i < |names| ensures
      var kind := Classify(realm, names[i]);
      (kind.RealmFile? <==> IsRealmName(realm, names[i])) && (kind.UserFile? <==> IsUserName(realm, names[i]))
      && (kind.OtherFile? <==> !IsRealmName(realm, names[i]) && !IsUserName(realm, names[i]))
    {
      WhatAFileIs(realm, names[i]);
    }
    FilteredAlike(names, name => Classify(realm, name).RealmFile?, name => IsRealmName(realm, name));
    FilteredAlike(names, name => Classify(realm, name).UserFile?, name => IsUserName(realm, name));
    FilteredAlike(names, name => Classify(realm, name).OtherFile?, name => !IsRealmName(realm, name) && !IsUserName(realm, name));
  }

  lemma UsersInOrder(realm: string, names: seq<string>, users: seq<string>)
    requires multiset(users) == multiset(OfUsers(realm, names))
    requires SortedBy((a, b) => Number(realm, a) <= Number(realm, b), users)
    ensures SortedBy(InPageOrder, users)
  {
    forall i, j | 0 <= i < j < |users| ensures InPageOrder(users[i], users[j]) {
      assert users[i] in multiset(users) && users[j] in multiset(users);
      FilteredHolds(names, name => Classify(realm, name).UserFile?, users[i]);
      FilteredHolds(names, name => Classify(realm, name).UserFile?, users[j]);
      NumbersInOrder(realm, users[i], users[j]);
    }
  }

  function OfRealm(realm: string, names: seq<string>): seq<string> {
    Filter(names, name => Classify(realm, name).RealmFile?)
  }

  function OfUsers(realm: string, names: seq<string>): seq<string> {
    Filter(names, name => Classify(realm, name).UserFile?)
  }

  function OfOthers(realm: string, names: seq<string>): seq<string> {
    Filter(names, name => Classify(realm, name).OtherFile?)
  }

  function LastOr(s: seq<string>): string {
    if s == [] then "" else s[|s| - 1]
  }

  lemma OneMoreName(realm: string, names: seq<string>, i: nat)
    requires i < |names|
    ensures var kind, more := Classify(realm, names[i]), [names[i]];
            OfRealm(realm, names[..i + 1]) == OfRealm(realm, names[..i]) + (if kind.RealmFile? then more else []) &&
            OfUsers(realm, names[..i + 1]) == OfUsers(realm, names[..i]) + (if kind.UserFile? then more else []) &&
            OfOthers(realm, names[..i + 1]) == OfOthers(realm, names[..i]) + (if kind.OtherFile? then more else [])
  {
    assert names[..i + 1][..i] == names[..i];
  }

  function Number(realm: string, name: string): nat {
    match Classify(realm, name)
    case UserFile(n) => n
    case _ => 0
  }

  ghost predicate SortedBy<T>(leq: (T, T) -> bool, s: seq<T>) {
    forall i, j :: 0 <= i < j < |s| ==> leq(s[i], s[j])
  }

  ghost predicate TotalPreorder<T(!new)>(leq: (T, T) -> bool) {
    && (forall a, b :: leq(a, b) || leq(b, a))
    && (forall a, b, c :: leq(a, b) && leq(b, c) ==> leq(a, c))
  }

  function Insert<T>(x: T, s: seq<T>, leq: (T, T) -> bool): (r: seq<T>)
    ensures multiset(r) == multiset(s) + multiset{x}
  {
    if s == [] || leq(x, s[0]) then [x] + s
    else
      assert s == [s[0]] + s[1..];
      [s[0]] + Insert(x, s[1..], leq)
  }

  lemma {:induction false} InsertKeepsSorted<T(!new)>(x: T, s: seq<T>, leq: (T, T) -> bool)
    requires TotalPreorder(leq) && SortedBy(leq, s)
    ensures SortedBy(leq, Insert(x, s, leq))
  {
    if s == [] || leq(x, s[0]) {
    } else {
      InsertKeepsSorted(x, s[1..], leq);
      var rest := Insert(x, s[1..], leq);
      forall j | 0 <= j < |rest| ensures leq(s[0], rest[j]) {
        assert rest[j] in multiset(rest);
        assert rest[j] == x || rest[j] in s[1..];
      }
    }
  }

  /** Any order `sort.Slice` or `sort.Strings` may leave: a permutation in which
      no element comes before a smaller one. Equal elements stand as they may. */
  method Sort<T(!new)>(s: seq<T>, leq: (T, T) -> bool) returns (r: seq<T>)
    requires TotalPreorder(leq)
    ensures SortedBy(leq, r) && multiset(r) == multiset(s)
  {
    r := [];
    for i := 0 to |s|
      invariant SortedBy(leq, r) && multiset(r) == multiset(s[..i])
    {
      assert s[..i + 1] == s[..i] + [s[i]];
      InsertKeepsSorted(s[i], r, leq);
      r := Insert(s[i], r, leq);
    }
    assert s[..|s|] == s;
  }

  predicate TextLeq(a: string, b: string) {
    !TextLess(b, a)
  }

  lemma {:induction false} TextLeqConnected(a: string, b: string)
    ensures TextLeq(a, b) || TextLeq(b, a)
  {
    if a != [] && b != [] && a[0] == b[0] {
      TextLeqConnected(a[1..], b[1..]);
    }
  }

  lemma {:induction false} TextLeqTransitive(a: string, b: string, c: string)
    requires TextLeq(a, b) && TextLeq(b, c)
    ensures TextLeq(a, c)
  {
    if a != [] && b != [] && c != [] && a[0] == b[0] == c[0] {
      TextLeqTransitive(a[1..], b[1..], c[1..]);
    }
  }

  lemma TextLeqIsTotal()
    ensures TotalPreorder(TextLeq)
  {
    forall a, b ensures TextLeq(a, b) || TextLeq(b, a) {
      TextLeqConnected(a, b);
    }
    forall a, b, c | TextLeq(a, b) && TextLeq(b, c) ensures TextLeq(a, c) {
      TextLeqTransitive(a, b, c);
    }
  }

  /** One pass over the names, then the two sorts. A second realm file replaces
      the first. */
  method ReadLayout(realm: string, names: seq<string>) returns (l: Layout)
    ensures l.realmFile == LastOr(Filter(names, name => IsRealmName(realm, name)))
    ensures multiset(l.userFiles) == multiset(Filter(names, name => IsUserName(realm, name)))
    ensures SortedBy(InPageOrder, l.userFiles)
    ensures multiset(l.other) == multiset(Filter(names, name => !IsRealmName(realm, name) && !IsUserName(realm, name)))
    ensures SortedBy(TextLeq, l.other)
  {
    var realmFile, users, others := "", [], [];
    for i := 0 to |names|
      invariant realmFile == LastOr(OfRealm(realm, names[..i]))
      invariant users == OfUsers(realm, names[..i])
      invariant others == OfOthers(realm, names[..i])
    {
      OneMoreName(realm, names, i);
      match Classify(realm, names[i])
      case RealmFile => realmFile := names[i];
      case UserFile(_) => users := users + [names[i]];
      case OtherFile => others := others + [names[i]];
    }
    assert names[..|names|] == names;
    TextLeqIsTotal();
    users := Sort(users, (a, b) => Number(realm, a) <= Number(realm, b));
    UsersInOrder(realm, names, users);
    others := Sort(others, TextLeq);
    GroupsAreTold(realm, names);
    l := Layout(realmFile, users, others);
  }

  /** Every name lands in exactly one of the three groups. */
  lemma {:induction false} GroupsCoverTheNames(realm: string, names: seq<string>)
    ensures multiset(names) == multiset(OfRealm(realm, names)) + multiset(OfUsers(realm, names)) + multiset(OfOthers(realm, names))
  {
    if names == [] {
    } else {
      var i := |names| - 1;
      GroupsCoverTheNames(realm, names[..i]);
      OneMoreName(realm, names, i);
      assert names[..i + 1] == names;
      OneMoreInAGroup(names, Classify(realm, names[i]), OfRealm(realm, names[..i]), OfUsers(realm, names[..i]), OfOthers(realm, names[..i]));
    }
  }

  lemma OneMoreInAGroup(s: seq<string>, kind: FileKind, a: seq<string>, b: seq<string>, c: seq<string>)
    requires s != [] && multiset(s[..|s| - 1]) == multiset(a) + multiset(b) + multiset(c)
    ensures var more := [s[|s| - 1]];
            multiset(s) == multiset(a + (if kind.RealmFile? then more else []))
                           + multiset(b + (if kind.UserFile? then more else []))
                           + multiset(c + (if kind.OtherFile? then more else []))
  {
    var front, more := s[..|s| - 1], [s[|s| - 1]];
    assert s == front + more;
    MultisetOfBoth(front, more);
    MultisetOfBoth(a, more);
    MultisetOfBoth(b, more);
    MultisetOfBoth(c, more);
    assert a + [] == a && b + [] == b && c + [] == c;
  }

  lemma MultisetOfBoth(s: seq<string>, t: seq<string>)
    ensures multiset(s + t) == multiset(s) + multiset(t)
  {
  }

  lemma {:induction false} RealmFilesHaveNames(realm: string, names: seq<string>)
    ensures "" !in OfRealm(realm, names)
  {
    if names != [] {
      RealmFilesHaveNames(realm, names[..|names| - 1]);
      assert PathBase("") == "." && |realm + ".json"| >= 5;
    }
  }

  /** The layout holds exactly the names it was read from if and only if at most
      one of them is a realm file. */
  lemma LayoutConservesNames(realm: string, names: seq<string>, l: Layout)
    requires l.realmFile == LastOr(Filter(names, name => IsRealmName(realm, name)))
    requires multiset(l.userFiles) == multiset(Filter(names, name => IsUserName(realm, name)))
    requires multiset(l.other) == multiset(Filter(names, name => !IsRealmName(realm, name) && !IsUserName(realm, name)))
    ensures multiset(names) == multiset(if l.realmFile == "" then [] else [l.realmFile]) + multiset(l.userFiles) + multiset(l.other)
              <==> |Filter(names, name => IsRealmName(realm, name))| <= 1
  {
    GroupsAreTold(realm, names);
    var rs := OfRealm(realm, names);
    var kept := if l.realmFile == "" then [] else [l.realmFile];
    GroupsCoverTheNames(realm, names);
    RealmFilesHaveNames(realm, names);
    assert rs != [] ==> rs[|rs| - 1] in rs;
    assert |multiset(names)| == |rs| + |multiset(l.userFiles)| + |multiset(l.other)|;
    if |rs| == 1 {
      assert rs == [rs[0]];
    }
  }
}
