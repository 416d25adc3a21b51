/** The walk that replaces every nil list and map it may set by an empty one. */
module Lists {
  import opened Prelude

  /** A value as reflection sees it. `Other` is any kind the walk does nothing
      with: scalars, strings, arrays. A struct field is exported or not. */
  datatype Value =
    | Other(text: string)
    | NilSlice
    | Slice(elems: seq<Value>)
    | NilMap
    | Map(entries: seq<(string, Value)>)
    | NilPointer
    | Pointer(target: Value)
    | NilInterface
    | Interface(dynamic: Value)
    | Struct(fields: seq<Field>)

  datatype Field = Field(exported: bool, value: Value)

  /** The walk. `canSet` says whether the value can be replaced where it is:
      what an interface holds cannot, an element of a slice, a map's value in
      its temporary and a pointer's target can, and a field can when it is
      exported and its struct can. */
  function Fill(v: Value, canSet: bool): Value
    decreases v
  {
    match v
    case NilSlice => if canSet then Slice([]) else v
    case Slice(elems) => Slice(seq(|elems|, i requires 0 <= i < |elems| => Fill(elems[i], true)))
    case NilMap => if canSet then Map([]) else v
    case Map(entries) =>
      Map(seq(|entries|, i requires 0 <= i < |entries| => (entries[i].0, Fill(entries[i].1, true))))
    case Pointer(target) => Pointer(Fill(target, true))
    case Interface(dynamic) => Interface(Fill(dynamic, false))
    case Struct(fields) =>
      Struct(seq(|fields|, i requires 0 <= i < |fields| =>
        if canSet && fields[i].exported then Field(true, Fill(fields[i].value, true)) else fields[i]))
    case _ => v
  }

  // ----------------------------------------------------------- walking by a path

  datatype Step = Index(i: nat) | Inside

  /** Where a path leads in a value, and whether what stands there can be set. */
  function At(v: Value, canSet: bool, path: seq<Step>): Option<(Value, bool)>
    decreases path
  {
    if path == [] then Some((v, canSet))
    else
      match (v, path[0])
      case (Slice(elems), Index(i)) => if i < |elems| then At(elems[i], true, path[1..]) else None
      case (Map(entries), Index(i)) => if i < |entries| then At(entries[i].1, true, path[1..]) else None
      case (Pointer(target), Inside) => At(target, true, path[1..])
      case (Interface(dynamic), Inside) => At(dynamic, false, path[1..])
      case (Struct(fields), Index(i)) =>
        if i < |fields| && canSet && fields[i].exported then At(fields[i].value, true, path[1..]) else None
      case _ => None
  }

  /** Nothing the walk can reach and set is nil any more. */
  lemma {:induction false} NoNilIsLeft(v: Value, canSet: bool, path: seq<Step>)
    requires At(Fill(v, canSet), canSet, path).Some?
    ensures var (w, settable) := At(Fill(v, canSet), canSet, path).value;
            settable ==> !w.NilSlice? && !w.NilMap?
    decreases path
  {
    if path != [] {
      match (v, path[0])
      case (Slice(elems), Index(i)) => NoNilIsLeft(elems[i], true, path[1..]);
      case (Map(entries), Index(i)) => NoNilIsLeft(entries[i].1, true, path[1..]);
      case (Pointer(target), Inside) => NoNilIsLeft(target, true, path[1..]);
      case (Interface(dynamic), Inside) => NoNilIsLeft(dynamic, false, path[1..]);
      case (Struct(fields), Index(i)) => NoNilIsLeft(fields[i].value, true, path[1..]);
      case _ =>
    }
  }

  /** Every path of the original still leads to the filled form of what stood
      at its end, as settable as it was. */
  lemma {:induction false} PathsSurvive(v: Value, canSet: bool, path: seq<Step>)
    requires At(v, canSet, path).Some?
    ensures var (w, settable) := At(v, canSet, path).value;
            At(Fill(v, canSet), canSet, path) == Some((Fill(w, settable), settable))
    decreases path
  {
    if path != [] {
      match (v, path[0])
      case (Slice(elems), Index(i)) => PathsSurvive(elems[i], true, path[1..]);
      case (Map(entries), Index(i)) => PathsSurvive(entries[i].1, true, path[1..]);
      case (Pointer(target), Inside) => PathsSurvive(target, true, path[1..]);
      case (Interface(dynamic), Inside) => PathsSurvive(dynamic, false, path[1..]);
      case (Struct(fields), Index(i)) => PathsSurvive(fields[i].value, true, path[1..]);
    }
  }

  /** Where a path leads through any field, whether what stands there can be set, and
      whether the walk comes there: it does not go into a field it may not set. */
  function Through(v: Value, canSet: bool, path: seq<Step>): Option<(Value, bool, bool)>
    decreases path
  {
    if path == [] then Some((v, canSet, true))
    else
      match (v, path[0])
      case (Slice(elems), Index(i)) => if i < |elems| then Through(elems[i], true, path[1..]) else None
      case (Map(entries), Index(i)) => if i < |entries| then Through(entries[i].1, true, path[1..]) else None
      case (Pointer(target), Inside) => Through(target, true, path[1..])
      case (Interface(dynamic), Inside) => Through(dynamic, false, path[1..])
      case (Struct(fields), Index(i)) =>
        if i >= |fields| then None
        else if canSet && fields[i].exported then Through(fields[i].value, true, path[1..])
        else Unreached(Through(fields[i].value, true, path[1..]))
      case _ => None
  }

  function Unreached(w: Option<(Value, bool, bool)>): Option<(Value, bool, bool)> {
    match w
    case Some((v, canSet, _)) => Some((v, canSet, false))
    case None => None
  }

  /** A nil list or map anywhere becomes an empty one exactly where the walk comes and may
      set it; where it does not come, nothing changes at all. */
  lemma {:induction false} NilIsFilledWhereItMay(v: Value, canSet: bool, path: seq<Step>)
    requires Through(v, canSet, path).Some?
    ensures Through(Fill(v, canSet), canSet, path).Some?
    ensures var (w, settable, reached) := Through(v, canSet, path).value;
            var x := Through(Fill(v, canSet), canSet, path).value.0;
            && (w.NilSlice? ==> x == if reached && settable then Slice([]) else NilSlice)
            && (w.NilMap? ==> x == if reached && settable then Map([]) else NilMap)
            && (!reached ==> x == w)
    decreases path
  {
    if path != [] {
      match (v, path[0])
      case (Slice(elems), Index(i)) => NilIsFilledWhereItMay(elems[i], true, path[1..]);
      case (Map(entries), Index(i)) => NilIsFilledWhereItMay(entries[i].1, true, path[1..]);
      case (Pointer(target), Inside) => NilIsFilledWhereItMay(target, true, path[1..]);
      case (Interface(dynamic), Inside) => NilIsFilledWhereItMay(dynamic, false, path[1..]);
      case (Struct(fields), Index(i)) =>
        if canSet && fields[i].exported {
          NilIsFilledWhereItMay(fields[i].value, true, path[1..]);
        } else {
          assert Fill(v, canSet).fields[i] == fields[i];
        }
    }
  }

  // ------------------------------------------------------ what the walk leaves be

  /** A value with the difference between nil and empty forgotten everywhere. */
  function Blur(v: Value): Value
    decreases v
  {
    match v
    case NilSlice => Slice([])
    case NilMap => Map([])
    case Slice(elems) => Slice(seq(|elems|, i requires 0 <= i < |elems| => Blur(elems[i])))
    case Map(entries) => Map(seq(|entries|, i requires 0 <= i < |entries| => (entries[i].0, Blur(entries[i].1))))
    case Pointer(target) => Pointer(Blur(target))
    case Interface(dynamic) => Interface(Blur(dynamic))
    case Struct(fields) =>
      Struct(seq(|fields|, i requires 0 <= i < |fields| => Field(fields[i].exported, Blur(fields[i].value))))
    case _ => v
  }

  /** The walk changes nothing but nil into empty. */
  lemma {:induction false} OnlyNilChanges(v: Value, canSet: bool)
    ensures Blur(Fill(v, canSet)) == Blur(v)
    decreases v
  {
    var w := Fill(v, canSet);
    match v
    case Slice(elems) =>
      forall i | 0 <= i < |elems| ensures Blur(w.elems[i]) == Blur(elems[i]) {
        OnlyNilChanges(elems[i], true);
      }
      assert Blur(w).elems == Blur(v).elems;
    case Map(entries) =>
      forall i | 0 <= i < |entries| ensures Blur(w.entries[i].1) == Blur(entries[i].1) {
        OnlyNilChanges(entries[i].1, true);
      }
      assert Blur(w).entries == Blur(v).entries;
    case Pointer(target) => OnlyNilChanges(target, true);
    case Interface(dynamic) => OnlyNilChanges(dynamic, false);
    case Struct(fields) =>
      forall i | 0 <= i < |fields| ensures Blur(w.fields[i].value) == Blur(fields[i].value) {
        OnlyNilChanges(fields[i].value, true);
      }
      assert Blur(w).fields == Blur(v).fields;
    case _ =>
  }

  /** A second walk changes nothing more. */
  lemma {:induction false} FillTwice(v: Value, canSet: bool)
    ensures Fill(Fill(v, canSet), canSet) == Fill(v, canSet)
    decreases v
  {
    var w := Fill(v, canSet);
    match v
    case Slice(elems) =>
      forall i | 0 <= i < |elems| ensures Fill(w.elems[i], true) == w.elems[i] {
        FillTwice(elems[i], true);
      }
      assert Fill(w, canSet).elems == w.elems;
    case Map(entries) =>
      forall i | 0 <= i < |entries| ensures (w.entries[i].0, Fill(w.entries[i].1, true)) == w.entries[i] {
        FillTwice(entries[i].1, true);
      }
      assert Fill(w, canSet).entries == w.entries;
    case Pointer(target) => FillTwice(target, true);
    case Interface(dynamic) => FillTwice(dynamic, false);
    case Struct(fields) =>
      forall i | 0 <= i < |fields| && canSet && fields[i].exported ensures Fill(w.fields[i].value, true) == w.fields[i].value {
        FillTwice(fields[i].value, true);
      }
      assert Fill(w, canSet).fields == w.fields;
    case _ =>
  }
}
