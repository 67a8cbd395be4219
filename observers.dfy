/** The observer tuples the adapters and the examples use: named
    `RefCellValueObserver`s over a `u32` or a `bool`, looked up through a
    `Handle` that carries the observer's name and value type. */
module Observers {
  import opened Common

  /** The value held in an observer's cell. */
  datatype Cell = U32Cell(n: nat) | BoolCell(b: bool)

  datatype Kind = U32Kind | BoolKind

  datatype Observer = Observer(name: string, cell: Cell)

  /** `Handle<RefCellValueObserver<'_, T>>`: a name and a value type. */
  datatype Handle = Handle(name: string, kind: Kind)

  function KindOf(c: Cell): Kind {
    if c.U32Cell? then U32Kind else BoolKind
  }

  predicate Matches(o: Observer, h: Handle) {
    o.name == h.name && KindOf(o.cell) == h.kind
  }

  /** `MatchNameRef::get`: the position of the first observer in the tuple
      with the handle's name and value type. */
  function Find(obs: seq<Observer>, h: Handle): (r: Option<nat>)
    ensures r.Some? ==> r.value < |obs| && Matches(obs[r.value], h)
    ensures r.Some? ==> forall j :: 0 <= j < r.value ==> !Matches(obs[j], h)
    ensures r.None? <==> forall j :: 0 <= j < |obs| ==> !Matches(obs[j], h)
  {
    if obs == [] then None
    else if Matches(obs[0], h) then Some(0)
    else match Find(obs[1..], h)
      case None => None
      case Some(i) => Some(i + 1)
  }

  /** The `u32` a handle reads, if the tuple has such an observer. */
  function GetU32(obs: seq<Observer>, h: Handle): (r: Option<nat>)
    requires h.kind == U32Kind
    ensures r.Some? <==> Find(obs, h).Some?
    ensures r.Some? ==> obs[Find(obs, h).value].cell == U32Cell(r.value)
  {
    match Find(obs, h)
    case None => None
    case Some(i) => Some(obs[i].cell.n)
  }

  /** The `bool` a handle reads, if the tuple has such an observer. */
  function GetBool(obs: seq<Observer>, h: Handle): (r: Option<bool>)
    requires h.kind == BoolKind
    ensures r.Some? <==> Find(obs, h).Some?
    ensures r.Some? ==> obs[Find(obs, h).value].cell == BoolCell(r.value)
  {
    match Find(obs, h)
    case None => None
    case Some(i) => Some(obs[i].cell.b)
  }

  /** `get_mut(handle)…set(…)`: the matching observer's cell holds `c`
      afterwards and no other observer changes; `None` if none matches. */
  function SetCell(obs: seq<Observer>, h: Handle, c: Cell): (r: Option<seq<Observer>>)
    requires KindOf(c) == h.kind
    ensures r.Some? <==> Find(obs, h).Some?
    ensures r.Some? ==> |r.value| == |obs| && Find(r.value, h) == Find(obs, h)
    ensures r.Some? ==> r.value[Find(obs, h).value].cell == c
    ensures r.Some? ==> forall j :: 0 <= j < |obs| && j != Find(obs, h).value ==> r.value[j] == obs[j]
  {
    match Find(obs, h)
    case None => None
    case Some(i) =>
      var after := obs[i := Observer(h.name, c)];
      FindIs(after, h, i);
      Some(after)
  }

  /** Setting a `u32` value; it is read back through the same handle. */
  function SetU32(obs: seq<Observer>, h: Handle, n: nat): (r: Option<seq<Observer>>)
    requires h.kind == U32Kind
    ensures r.Some? <==> Find(obs, h).Some?
    ensures r.Some? ==> GetU32(r.value, h) == Some(n)
  {
    SetCell(obs, h, U32Cell(n))
  }

  /** Setting a `bool` value; it is read back through the same handle. */
  function SetBool(obs: seq<Observer>, h: Handle, b: bool): (r: Option<seq<Observer>>)
    requires h.kind == BoolKind
    ensures r.Some? <==> Find(obs, h).Some?
    ensures r.Some? ==> GetBool(r.value, h) == Some(b)
  {
    SetCell(obs, h, BoolCell(b))
  }

  /** `Find` stops at the first match. */
  lemma {:induction false} FindIs(obs: seq<Observer>, h: Handle, i: nat)
    requires i < |obs| && Matches(obs[i], h)
    requires forall j :: 0 <= j < i ==> !Matches(obs[j], h)
    ensures Find(obs, h) == Some(i)
    decreases i
  {
    if i > 0 {
      FindIs(obs[1..], h, i - 1);
    }
  }

  /** Setting through one handle leaves what every other handle finds
      and reads. */
  lemma {:induction false} SetLeavesOthers(obs: seq<Observer>, h: Handle, c: Cell, g: Handle)
    requires KindOf(c) == h.kind && Find(obs, h).Some? && g != h
    ensures Find(SetCell(obs, h, c).value, g) == Find(obs, g)
    ensures g.kind == BoolKind ==> GetBool(SetCell(obs, h, c).value, g) == GetBool(obs, g)
    ensures g.kind == U32Kind ==> GetU32(SetCell(obs, h, c).value, g) == GetU32(obs, g)
  {
    var i := Find(obs, h).value;
    var after := SetCell(obs, h, c).value;
    assert Matches(after[i], g) <==> Matches(obs[i], g);
    FindSame(obs, after, g);
  }

  /** Two tuples that agree on which positions match `g` agree on `Find`. */
  lemma {:induction false} FindSame(a: seq<Observer>, b: seq<Observer>, g: Handle)
    requires |a| == |b|
    requires forall j :: 0 <= j < |a| ==> (Matches(a[j], g) <==> Matches(b[j], g))
    ensures Find(a, g) == Find(b, g)
    decreases |a|
  {
    if a != [] {
      FindSame(a[1..], b[1..], g);
    }
  }
}
