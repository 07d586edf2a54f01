/** The value-routing nodes: Switch, Index Switch, Get Item From List, Create
    List, Create Scene List, Join Strings and Split String. Each `execute`
    reads its keyword arguments (`kwargs`, keyed by socket identifier) and
    returns a value; none of them touches the host. A result of `None` in
    `Option` means the call raises; a Python `None` is `VNone`. */
module ListNodes {
  import opened Base
  import opened Strings
  import opened HostStore
  import opened EngineUtils
  import opened NodeEval

  // ---------------------------------------------------------------------
  // Switch

  /** `FN_switch.execute`: both branch inputs are read, the truthiness of
      the Switch input picks one, and the value is returned bare. */
  function Switch(kwargs: Props, switchId: string, falseId: string, trueId: string): (r: Value)
    ensures Truthy(Get(kwargs, switchId)) ==> r == Get(kwargs, trueId)
    ensures !Truthy(Get(kwargs, switchId)) ==> r == Get(kwargs, falseId)
    ensures switchId !in kwargs ==> r == Get(kwargs, falseId)
  {
    var falseValue := Get(kwargs, falseId);
    var trueValue := Get(kwargs, trueId);
    if Truthy(Get(kwargs, switchId)) then trueValue else falseValue
  }

  // ---------------------------------------------------------------------
  // Index Switch

  /** The candidate list: one entry per item slot, the slot's input value,
      or None where the slot's socket (`'Item i'`) is missing. */
  function ItemValues(kwargs: Props, sockets: seq<Option<string>>): (r: seq<Value>)
    ensures |r| == |sockets|
    ensures forall i :: 0 <= i < |sockets| && sockets[i].None? ==> r[i] == VNone
    ensures forall i :: 0 <= i < |sockets| && sockets[i].Some? ==> r[i] == Get(kwargs, sockets[i].value)
  {
    seq(|sockets|, i requires 0 <= i < |sockets| =>
      if sockets[i].Some? then Get(kwargs, sockets[i].value) else VNone)
  }

  /** `FN_index_switch.execute`: an index that is not an int gives None, an
      index in `0 .. item_count - 1` gives that slot's value bare, and any
      other index, a negative one included, gives None. */
  function IndexSwitch(kwargs: Props, indexId: string, sockets: seq<Option<string>>): (r: Value)
    ensures AsInt(Get(kwargs, indexId)).None? ==> r == VNone
    ensures forall n :: AsInt(Get(kwargs, indexId)) == Some(n) && (n < 0 || n >= |sockets|) ==> r == VNone
    ensures forall n :: AsInt(Get(kwargs, indexId)) == Some(n) && 0 <= n < |sockets| && sockets[n].Some? ==>
      r == Get(kwargs, sockets[n].value)
    ensures r != VNone ==> exists n :: 0 <= n < |sockets| && sockets[n].Some? && r == Get(kwargs, sockets[n].value)
  {
    match AsInt(Get(kwargs, indexId))
    case None => VNone
    case Some(n) =>
      var values := ItemValues(kwargs, sockets);
      if 0 <= n < |values| then values[n] else VNone
  }

  /** Python's `True` is the int 1, so a true index picks the second slot. */
  lemma TrueIndexPicksSecond(kwargs: Props, indexId: string, sockets: seq<Option<string>>)
    requires Get(kwargs, indexId) == VBool(true)
    requires |sockets| >= 2 && sockets[1].Some?
    ensures IndexSwitch(kwargs, indexId, sockets) == Get(kwargs, sockets[1].value)
  {
    assert AsInt(VBool(true)) == Some(1);
  }

  // ---------------------------------------------------------------------
  // Get Item From List

  /** How the search by name ends: the first item named so, no such item,
      or an item whose `name` cannot be read (a removed datablock raises). */
  datatype Search = Item(v: Value) | Absent | Raises

  /** `item.name == name_to_find`, read through the host. */
  predicate Named(w: World, v: Value, name: string) {
    GetAttr(w, v, "name") == Got(VStr(name))
  }

  /** The name-mode loop of `FN_get_item_from_list.execute`: items in list
      order; an item without a `name` attribute is passed over. */
  function FindNamed(w: World, items: seq<Value>, name: string): (r: Search)
    ensures r.Item? ==> exists i :: (0 <= i < |items| && items[i] == r.v && Named(w, items[i], name)
      && forall j :: 0 <= j < i ==> !Named(w, items[j], name) && GetAttr(w, items[j], "name") != Dead)
    ensures r.Absent? <==> forall i :: 0 <= i < |items| ==> !Named(w, items[i], name) && GetAttr(w, items[i], "name") != Dead
    ensures r.Raises? ==> exists i :: (0 <= i < |items| && GetAttr(w, items[i], "name") == Dead
      && forall j :: 0 <= j < i ==> !Named(w, items[j], name))
    decreases |items|
  {
    if items == [] then Absent
    else
      match GetAttr(w, items[0], "name")
      case Dead => Raises
      case Got(v) =>
        if v == VStr(name) then Item(items[0])
        else
          var rest := FindNamed(w, items[1..], name);
          assert forall j :: 1 <= j < |items| ==> items[j] == items[1..][j - 1];
          rest
      case NoAttr =>
        var rest := FindNamed(w, items[1..], name);
        assert forall j :: 1 <= j < |items| ==> items[j] == items[1..][j - 1];
        rest
  }

  /** `FN_get_item_from_list.execute`. A missing, empty or non-list input
      gives a bare None. In INDEX mode a non-int index gives a bare None and
      any other index gives `{Item: list[index]}`, or `{Item: None}` out of
      range. In NAME mode the first item with that name is returned under
      Item, None when there is none or the name is not a string. */
  function GetItemFromList(w: World, kwargs: Props, mode: string, listId: string, indexId: string,
                           nameId: string, itemId: string): (r: Option<Value>)
    ensures (!Truthy(Get(kwargs, listId)) || !Get(kwargs, listId).VList?) ==> r == Some(VNone)
    ensures Get(kwargs, listId).VList? && Get(kwargs, listId).items != [] && mode == "INDEX" ==>
      match AsInt(Get(kwargs, indexId))
      case None => r == Some(VNone)
      case Some(n) =>
        var items := Get(kwargs, listId).items;
        r == Some(Out(itemId, if 0 <= n < |items| then items[n] else VNone))
    ensures r.None? ==> (mode == "NAME" && Get(kwargs, nameId).VStr?
      && FindNamed(w, Get(kwargs, listId).items, Get(kwargs, nameId).s).Raises?)
    ensures Get(kwargs, listId).VList? && Get(kwargs, listId).items != [] && mode == "NAME" && !Get(kwargs, nameId).VStr? ==>
      r == Some(Out(itemId, VNone))
    ensures Get(kwargs, listId).VList? && Get(kwargs, listId).items != [] && mode != "INDEX" && mode != "NAME" ==>
      r == Some(Out(itemId, VNone))
  {
    var input := Get(kwargs, listId);
    if !Truthy(input) || !input.VList? then Some(VNone)
    else if mode == "INDEX" then
      match AsInt(Get(kwargs, indexId))
      case None => Some(VNone)
      case Some(n) => Some(Out(itemId, if 0 <= n < |input.items| then input.items[n] else VNone))
    else if mode == "NAME" then
      var query := Get(kwargs, nameId);
      if !query.VStr? then Some(Out(itemId, VNone))
      else
        match FindNamed(w, input.items, query.s)
        case Item(v) => Some(Out(itemId, v))
        case Absent => Some(Out(itemId, VNone))
        case Raises => None
    else Some(Out(itemId, VNone))
  }

  /** In NAME mode, an item is returned only if it carries the name asked
      for, and a live datablock of that name in the list is always found. */
  lemma NameModeFinds(w: World, kwargs: Props, listId: string, indexId: string, nameId: string, itemId: string, k: nat)
    requires Get(kwargs, listId).VList? && Get(kwargs, nameId).VStr?
    requires k < |Get(kwargs, listId).items| && Named(w, Get(kwargs, listId).items[k], Get(kwargs, nameId).s)
    ensures GetItemFromList(w, kwargs, "NAME", listId, indexId, nameId, itemId).Some? ==>
      exists v :: GetItemFromList(w, kwargs, "NAME", listId, indexId, nameId, itemId) == Some(Out(itemId, v))
        && Named(w, v, Get(kwargs, nameId).s)
  {
    var items := Get(kwargs, listId).items;
    var name := Get(kwargs, nameId).s;
    assert Truthy(Get(kwargs, listId));
    var found := FindNamed(w, items, name);
    assert !found.Absent?;
    if found.Item? {
      var i :| 0 <= i < |items| && items[i] == found.v && Named(w, items[i], name);
      assert Named(w, found.v, name);
    }
  }

  // ---------------------------------------------------------------------
  // Create List

  /** What one input socket adds to the list: a linked socket its value
      unless that is None, an unlinked socket its `default_value` (even an
      empty one), a socket without a default nothing. */
  function Contribution(input: Input, kwargs: Props): (r: seq<Value>)
    ensures |r| <= 1
  {
    if input.links != [] then
      (if Get(kwargs, input.ident) != VNone then [Get(kwargs, input.ident)] else [])
    else if input.default.Some? then [input.default.value]
    else []
  }

  /** The loop of `FN_create_list.execute`, sockets in order. */
  function ListItems(inputs: seq<Input>, kwargs: Props): (r: seq<Value>)
    ensures |r| <= |inputs|
    decreases |inputs|
  {
    if inputs == [] then [] else Contribution(inputs[0], kwargs) + ListItems(inputs[1..], kwargs)
  }

  /** Every item comes from one socket, and every socket that has something
      to add is represented. */
  lemma {:induction false} ListItemsMembers(inputs: seq<Input>, kwargs: Props)
    ensures forall v :: v in ListItems(inputs, kwargs) ==>
      exists k :: 0 <= k < |inputs| && Contribution(inputs[k], kwargs) == [v]
    ensures forall k :: 0 <= k < |inputs| && Contribution(inputs[k], kwargs) != [] ==>
      Contribution(inputs[k], kwargs)[0] in ListItems(inputs, kwargs)
    decreases |inputs|
  {
    if inputs != [] {
      ListItemsMembers(inputs[1..], kwargs);
      assert forall k :: 1 <= k < |inputs| ==> inputs[k] == inputs[1..][k - 1];
      forall v | v in ListItems(inputs, kwargs)
        ensures exists k :: 0 <= k < |inputs| && Contribution(inputs[k], kwargs) == [v]
      {
        if v in Contribution(inputs[0], kwargs) {
          assert Contribution(inputs[0], kwargs) == [v];
        } else {
          var k :| 0 <= k < |inputs[1..]| && Contribution(inputs[1..][k], kwargs) == [v];
          assert Contribution(inputs[k + 1], kwargs) == [v];
        }
      }
    }
  }

  /** The list keeps socket order: the sockets of `a` contribute before
      those of `b`. */
  lemma {:induction false} ListItemsInOrder(a: seq<Input>, b: seq<Input>, kwargs: Props)
    ensures ListItems(a + b, kwargs) == ListItems(a, kwargs) + ListItems(b, kwargs)
    decreases |a|
  {
    if a == [] {
      assert a + b == b;
    } else {
      ListItemsInOrder(a[1..], b, kwargs);
      assert (a + b)[0] == a[0];
      assert (a + b)[1..] == a[1..] + b;
      var c, x, y := Contribution(a[0], kwargs), ListItems(a[1..], kwargs), ListItems(b, kwargs);
      assert ListItems(a + b, kwargs) == c + (x + y);
      assert ListItems(a, kwargs) == c + x;
      assert c + (x + y) == (c + x) + y;
    }
  }

  /** `FN_create_list.execute`: the list under the `List` output. */
  function CreateList(inputs: seq<Input>, kwargs: Props, listId: string): (r: Value)
    ensures r.VDict? && r.d.Keys == {listId} && r.d[listId].VList?
    ensures VNone in r.d[listId].items ==> exists k :: 0 <= k < |inputs| && inputs[k].links == [] && inputs[k].default == Some(VNone)
  {
    ListItemsMembers(inputs, kwargs);
    Out(listId, VList(ListItems(inputs, kwargs)))
  }

  // ---------------------------------------------------------------------
  // Create Scene List and Join Strings

  /** The truthy values, in order. */
  function Kept(vs: seq<Value>): (r: seq<Value>)
    ensures forall i :: 0 <= i < |r| ==> Truthy(r[i])
    ensures forall i :: 0 <= i < |vs| && Truthy(vs[i]) ==> vs[i] in r
    ensures IsSubsequence(r, vs)
    decreases |vs|
  {
    if vs == [] then []
    else
      var rest := Kept(vs[1..]);
      assert forall i :: 1 <= i < |vs| ==> vs[i] == vs[1..][i - 1];
      if Truthy(vs[0]) then [vs[0]] + rest else rest
  }

  /** `kwargs.get(self.inputs[i].identifier)` for the first `count`
      sockets; `None` when the node has fewer sockets (`IndexError`). */
  function Firsts(kwargs: Props, idents: seq<string>, count: nat): (r: Option<seq<Value>>)
    ensures r.Some? <==> count <= |idents|
    ensures r.Some? ==> |r.value| == count && forall i :: 0 <= i < count ==> r.value[i] == Get(kwargs, idents[i])
  {
    if count > |idents| then None
    else Some(seq(count, i requires 0 <= i < count => Get(kwargs, idents[i])))
  }

  /** `FN_create_scene_list.execute`: the truthy scene roots of the first
      `scene_inputs` sockets, in socket order, under the first output. */
  function CreateSceneList(kwargs: Props, idents: seq<string>, count: nat, outId: string): (r: Option<Value>)
    ensures r.Some? <==> count <= |idents|
    ensures r.Some? ==> r.value.VDict? && r.value.d.Keys == {outId} && r.value.d[outId].VList?
    ensures r.Some? ==> var items := r.value.d[outId].items;
      (forall i :: 0 <= i < |items| ==> Truthy(items[i]))
      && (forall i :: 0 <= i < count && Truthy(Get(kwargs, idents[i])) ==> Get(kwargs, idents[i]) in items)
      && IsSubsequence(items, Firsts(kwargs, idents, count).value)
  {
    match Firsts(kwargs, idents, count)
    case None => None
    case Some(vs) => Some(Out(outId, VList(Kept(vs))))
  }

  predicate AllStrings(vs: seq<Value>) {
    forall i :: 0 <= i < |vs| ==> vs[i].VStr?
  }

  function Texts(vs: seq<Value>): (r: seq<string>)
    requires AllStrings(vs)
    ensures |r| == |vs| && forall i :: 0 <= i < |vs| ==> r[i] == vs[i].s
  {
    seq(|vs|, i requires 0 <= i < |vs| => vs[i].s)
  }

  /** `FN_join_strings.execute`: the non-empty strings of the first
      `string_inputs` sockets joined with the separator. A truthy
      non-string makes `str.join` raise. */
  function JoinStrings(kwargs: Props, idents: seq<string>, count: nat, sep: string, outId: string): (r: Option<Value>)
    ensures r.Some? <==> count <= |idents| && AllStrings(Kept(Firsts(kwargs, idents, count).value))
    ensures r.Some? ==> r.value.VDict? && r.value.d.Keys == {outId} && r.value.d[outId].VStr?
  {
    match Firsts(kwargs, idents, count)
    case None => None
    case Some(vs) =>
      var kept := Kept(vs);
      if !AllStrings(kept) then None
      else Some(Out(outId, VStr(Join(Texts(kept), sep))))
  }

  /** The joined text starts with the first kept string and ends with the
      last one: there is no leading or trailing separator. */
  lemma {:induction false} JoinEnds(parts: seq<string>, sep: string)
    requires parts != []
    ensures StartsWith(Join(parts, sep), parts[0])
    ensures |parts[|parts| - 1]| <= |Join(parts, sep)|
    ensures Join(parts, sep)[|Join(parts, sep)| - |parts[|parts| - 1]|..] == parts[|parts| - 1]
    decreases |parts|
  {
    if |parts| > 1 {
      JoinEnds(parts[1..], sep);
      var rest := Join(parts[1..], sep);
      assert Join(parts, sep) == parts[0] + sep + rest;
      assert parts[1..][|parts[1..]| - 1] == parts[|parts| - 1];
      assert (parts[0] + sep + rest)[..|parts[0]|] == parts[0];
      var j := |Join(parts, sep)| - |parts[|parts| - 1]|;
      assert Join(parts, sep)[j..] == rest[|rest| - |parts[|parts| - 1]|..];
    }
  }

  /** The joined string is empty exactly when no input was kept, and with a
      one-character separator that none of the kept strings contains,
      splitting it gives the kept strings back. */
  lemma JoinStringsFacts(kwargs: Props, idents: seq<string>, count: nat, c: char, outId: string)
    requires JoinStrings(kwargs, idents, count, [c], outId).Some?
    ensures var kept := Texts(Kept(Firsts(kwargs, idents, count).value));
      var joined := JoinStrings(kwargs, idents, count, [c], outId).value.d[outId].s;
      (joined == "" <==> kept == [])
      && (kept != [] && (forall i :: 0 <= i < |kept| ==> c !in kept[i]) ==> Split(joined, [c]) == kept)
  {
    var vs := Kept(Firsts(kwargs, idents, count).value);
    var kept := Texts(vs);
    if kept != [] {
      JoinEnds(kept, [c]);
      assert Truthy(vs[0]);
      if forall i :: 0 <= i < |kept| ==> c !in kept[i] {
        SplitJoin(kept, c);
      }
    }
  }

  // ---------------------------------------------------------------------
  // Split String

  /** The leading run of non-whitespace characters. */
  function Token(s: string): (r: string)
    ensures |r| <= |s| && r == s[..|r|]
    ensures forall i :: 0 <= i < |r| ==> !IsSpace(r[i])
    ensures |r| == |s| || IsSpace(s[|r|])
  {
    if s == [] || IsSpace(s[0]) then [] else [s[0]] + Token(s[1..])
  }

  /** `s.split()` with no separator: the maximal runs of non-whitespace. */
  function Words(s: string): (r: seq<string>)
    ensures forall i :: 0 <= i < |r| ==> r[i] != [] && forall j :: 0 <= j < |r[i]| ==> !IsSpace(r[i][j])
    decreases |s|
  {
    LStripShrinks(s);
    var t := LStrip(s);
    if t == [] then []
    else
      var w := Token(t);
      [w] + Words(t[|w|..])
  }

  function StrValues(parts: seq<string>): (r: seq<Value>)
    ensures |r| == |parts| && forall i :: 0 <= i < |parts| ==> r[i] == VStr(parts[i])
  {
    seq(|parts|, i requires 0 <= i < |parts| => VStr(parts[i]))
  }

  /** `FN_split_string.execute`. The string defaults to `''` and the
      separator to `' '` only when their keys are absent. An empty or None
      string gives a bare `[]`. A None separator splits at whitespace runs,
      an empty separator raises `ValueError`, and a value that is not a
      string raises. */
  function SplitString(kwargs: Props, stringId: string, sepId: string): (r: Option<Value>)
    ensures !Truthy(if stringId in kwargs then kwargs[stringId] else VStr("")) ==> r == Some(VList([]))
    ensures Get(kwargs, sepId) == VStr("") && sepId in kwargs && Truthy(Get(kwargs, stringId)) ==> r.None?
    ensures r.Some? ==> r.value.VList? && forall i :: 0 <= i < |r.value.items| ==> r.value.items[i].VStr?
  {
    var input := if stringId in kwargs then kwargs[stringId] else VStr("");
    if !Truthy(input) then Some(VList([]))
    else if !input.VStr? then None
    else
      var sep := if sepId in kwargs then kwargs[sepId] else VStr(" ");
      match sep
      case VNone => Some(VList(StrValues(Words(input.s))))
      case VStr(t) => if t == "" then None else Some(VList(StrValues(Split(input.s, t))))
      case _ => None
  }

  /** With a string separator, joining the pieces with it gives the input
      back; with the default separator the pieces are cut at single spaces. */
  lemma SplitStringJoins(kwargs: Props, stringId: string, sepId: string)
    requires Get(kwargs, stringId).VStr? && Get(kwargs, stringId).s != ""
    requires sepId !in kwargs || (Get(kwargs, sepId).VStr? && Get(kwargs, sepId).s != "")
    ensures var sep := if sepId in kwargs then Get(kwargs, sepId).s else " ";
      SplitString(kwargs, stringId, sepId).Some?
      && Join(Texts(SplitString(kwargs, stringId, sepId).value.items), sep) == Get(kwargs, stringId).s
  {
    var s := Get(kwargs, stringId).s;
    var sep := if sepId in kwargs then Get(kwargs, sepId).s else " ";
    JoinSplit(s, sep);
    var items := SplitString(kwargs, stringId, sepId).value.items;
    assert items == StrValues(Split(s, sep));
    assert Texts(items) == Split(s, sep);
  }
}
