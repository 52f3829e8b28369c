/**
 * The items of the object tree: session, scene, object and camera items, their
 * parent links, the lazily built children, removal of top-level items and the
 * in-place renaming of sessions and scenes.
 *
 * The tree is an arena: every item has a number, an item's parent always has a
 * smaller number than the item, and `topLevel` lists the items at the root in
 * display order.
 */
module TreeItems {
  import opened Wrappers
  import opened FileKinds

  /** An Alembic object: its name, whether its metadata matches the camera schema, and its children. */
  datatype AbcObject = AbcObject(name: string, isCamera: bool, children: seq<AbcObject>)

  /** A record of the session file: a session with its entries, or a scene with the top object of its archive. */
  datatype Entry =
    | SessionEntry(name: string, filepath: string, loaded: bool, visible: bool, items: seq<Entry>)
    | SceneEntry(name: string, filepath: string, loaded: bool, visible: bool, top: AbcObject)

  /** The class of a tree item and the object it shows. */
  datatype Kind =
    | SessionItem(entry: Entry)
    | SceneItem(entry: Entry)
    | ObjectItem(obj: AbcObject)
    | CameraItem(obj: AbcObject)

  /** `is_removable`: true for session and scene items, false for every other item. */
  predicate IsRemovable(k: Kind) {
    k.SessionItem? || k.SceneItem?
  }

  type ItemId = nat

  /**
   * One tree item.  `seen` records that its children were built, `checked` is
   * the check box of the session column, `indicator` whether the expand arrow
   * shows; `hasEditor`, `editorShown` and `oldValue` are set by a double click.
   */
  datatype Item = Item(
    kind: Kind,
    parent: Option<ItemId>,
    children: seq<ItemId>,
    seen: bool,
    checked: bool,
    indicator: bool,
    hasEditor: bool,
    editorShown: bool,
    oldValue: string)

  /** A new session or scene item: checked, with the expand arrow, children not yet built. */
  function NewEntryItem(k: Kind, parent: Option<ItemId>): (item: Item)
    requires IsRemovable(k)
    ensures item.kind == k && item.parent == parent && item.children == []
    ensures item.checked && item.indicator && !item.seen && !item.hasEditor
  {
    Item(k, parent, [], false, true, true, false, false, "")
  }

  /**
   * The attributes an object item holds when its constructor, as written,
   * reaches the test at tree_widget.py:203: those the base constructor sets,
   * and `object`.  `iObject` is only the name of the constructor's parameter.
   */
  const ObjectItemAttributes: set<string> := {"_parent", "seen", "valid", "object"}

  /** Attribute lookup on an item: reading an attribute it does not hold raises AttributeError. */
  function GetAttr(attrs: set<string>, name: string): (r: Outcome)
    ensures r.Pass? <==> name in attrs
    ensures r.Fail? ==> r.error == AttributeError
  {
    if name in attrs then Pass else Fail(AttributeError)
  }

  /**
   * The object item constructor as written.  The base constructor has already
   * attached the item to its parent, unchecked, not expanded and without the
   * expand arrow, and the object is stored; the test at line 203 reads the
   * builtin `object`, which is always true, and then `self.iObject` is read.
   * The result is the item as far as it was built, and the outcome of that read.
   */
  function NewObjectItemAsWritten(obj: AbcObject, parent: Option<ItemId>, camera: bool): (r: (Item, Outcome))
    ensures r.0.kind == (if camera then CameraItem(obj) else ObjectItem(obj))
    ensures r.0.parent == parent && r.0.children == [] && !r.0.seen && !r.0.checked && !r.0.indicator
  {
    var item := Item(if camera then CameraItem(obj) else ObjectItem(obj), parent, [], false, false, false, false, false, "");
    (item, GetAttr(ObjectItemAttributes, "iObject"))
  }

  /**
   * Building an object or camera item as written always raises AttributeError,
   * because the item never holds `iObject`; the item is left half built.
   */
  lemma ObjectItemAsWrittenFails(obj: AbcObject, parent: Option<ItemId>, camera: bool)
    ensures NewObjectItemAsWritten(obj, parent, camera).1 == Fail(AttributeError)
  {
    assert "iObject" !in ObjectItemAttributes;
  }

  /** The object item constructor as intended: the expand arrow shows exactly when the object has children. */
  function NewObjectItem(obj: AbcObject, parent: Option<ItemId>, camera: bool): (item: Item)
    ensures item.kind == (if camera then CameraItem(obj) else ObjectItem(obj))
    ensures item.parent == parent && item.children == [] && !item.seen && !item.hasEditor
    ensures item.indicator <==> |obj.children| > 0
  {
    Item(if camera then CameraItem(obj) else ObjectItem(obj), parent, [], false, false, |obj.children| > 0, false, false, "")
  }

  /** The item built for a kind under a parent. */
  function NewItem(k: Kind, parent: Option<ItemId>): (item: Item)
    ensures item.kind == k && item.parent == parent && item.children == [] && !item.seen && !item.hasEditor
  {
    if IsRemovable(k) then NewEntryItem(k, parent) else NewObjectItem(k.obj, parent, k.CameraItem?)
  }

  /** The item a session builds for one of its entries: by file suffix, session first; none for other files. */
  function EntryChild(e: Entry): (r: seq<Kind>)
    ensures |r| <= 1 && forall k :: k in r ==> IsRemovable(k) && k.entry == e
  {
    if IsSessionFile(e.filepath) then [SessionItem(e)]
    else if IsSceneFile(e.filepath) then [SceneItem(e)]
    else []
  }

  /** The items a session builds for its entries, in entry order. */
  function SessionChildren(es: seq<Entry>): (r: seq<Kind>)
    ensures |r| <= |es|
    decreases |es|
  {
    if es == [] then [] else SessionChildren(es[..|es| - 1]) + EntryChild(es[|es| - 1])
  }

  /** Building children entry by entry: the items of a concatenation are the items of its parts, in order. */
  lemma {:induction false} SessionChildrenAppend(a: seq<Entry>, b: seq<Entry>)
    ensures SessionChildren(a + b) == SessionChildren(a) + SessionChildren(b)
    decreases |b|
  {
    if b == [] {
      assert a + b == a;
    } else {
      var b0 := b[..|b| - 1];
      assert (a + b)[..|a + b| - 1] == a + b0;
      SessionChildrenAppend(a, b0);
    }
  }

  /** One more entry: the step of the loop over a session's entries. */
  lemma SessionChildrenStep(es: seq<Entry>, i: nat)
    requires i < |es|
    ensures SessionChildren(es[..i + 1]) == SessionChildren(es[..i]) + EntryChild(es[i])
  {
    assert es[..i + 1][..i] == es[..i];
  }

  /**
   * Each item a session builds is a session item for an entry with the session
   * suffix or a scene item for an entry with the scene suffix, and every entry
   * with either suffix gets its item.
   */
  lemma {:induction false} SessionChildrenClassify(es: seq<Entry>)
    ensures forall k :: k in SessionChildren(es) ==>
      || (k.SessionItem? && k.entry in es && IsSessionFile(k.entry.filepath))
      || (k.SceneItem? && k.entry in es && IsSceneFile(k.entry.filepath) && !IsSessionFile(k.entry.filepath))
    ensures forall e :: e in es && IsSessionFile(e.filepath) ==> SessionItem(e) in SessionChildren(es)
    ensures forall e :: e in es && !IsSessionFile(e.filepath) && IsSceneFile(e.filepath) ==> SceneItem(e) in SessionChildren(es)
    decreases |es|
  {
    if es != [] {
      var init, last := es[..|es| - 1], es[|es| - 1];
      SessionChildrenClassify(init);
      assert es == init + [last];
      forall e | e in es ensures e in init || e == last { }
    }
  }

  /** The item an object builds for one of its children: a camera item when the child is a camera. */
  function ObjectChild(o: AbcObject): Kind {
    if o.isCamera then CameraItem(o) else ObjectItem(o)
  }

  /** The items an object builds for its children, one each, in order. */
  function ObjectChildren(os: seq<AbcObject>): (r: seq<Kind>)
    ensures |r| == |os|
    ensures forall j :: 0 <= j < |os| ==> r[j] == ObjectChild(os[j])
    decreases |os|
  {
    if os == [] then [] else ObjectChildren(os[..|os| - 1]) + [ObjectChild(os[|os| - 1])]
  }

  /**
   * The kinds of the items that `children` builds for an item, or the
   * exception it raises: a session not yet expanded builds its entries' items,
   * a scene builds one object item for the top of its archive, an object not
   * yet expanded builds its children's items; nothing else builds anything.
   */
  function Created(item: Item): (r: Result<seq<Kind>>)
    ensures r.Ok? && item.seen && !item.kind.SceneItem? ==> r.value == []
    ensures r.Ok? && item.kind.SceneItem? ==> |r.value| == 1 && r.value[0].ObjectItem?
    ensures r.Err? ==> IsRemovable(item.kind) && r.error == AttributeError
  {
    match item.kind
    case SessionItem(e) =>
      if item.seen then Ok([])
      else if e.SessionEntry? then Ok(SessionChildren(e.items))
      else Err(AttributeError)
    case SceneItem(e) =>
      if e.SceneEntry? then Ok([ObjectItem(e.top)]) else Err(AttributeError)
    case ObjectItem(o) => if item.seen then Ok([]) else Ok(ObjectChildren(o.children))
    case CameraItem(o) => if item.seen then Ok([]) else Ok(ObjectChildren(o.children))
  }

  /** The numbers from `next` on, `n` of them. */
  function Ids(next: ItemId, n: nat): (r: seq<ItemId>)
    ensures |r| == n && forall j :: 0 <= j < n ==> r[j] == next + j
  {
    seq(n, j => next + j)
  }

  lemma IdsSnoc(next: ItemId, n: nat)
    ensures Ids(next, n) + [next + n] == Ids(next, n + 1)
  {
  }

  /** The arena after item `id`, built as `k`, is added as the last child of `p`. */
  function AttachOne(m: map<ItemId, Item>, p: ItemId, k: Kind, id: ItemId): map<ItemId, Item>
    requires p in m && p != id
  {
    m[id := NewItem(k, Some(p))][p := m[p].(children := m[p].children + [id])]
  }

  /** The arena after items of kinds `ks`, numbered from `next`, are added in order as the last children of `p`. */
  function Attached(m: map<ItemId, Item>, p: ItemId, ks: seq<Kind>, next: ItemId): (r: map<ItemId, Item>)
    requires p in m && p < next
    ensures p in r
    decreases |ks|
  {
    if ks == [] then m
    else AttachOne(Attached(m, p, ks[..|ks| - 1], next), p, ks[|ks| - 1], next + |ks| - 1)
  }

  /** Attaching adds exactly the new numbers to the arena. */
  lemma {:induction false} AttachedDomain(m: map<ItemId, Item>, p: ItemId, ks: seq<Kind>, next: ItemId)
    requires p in m && p < next
    ensures forall id :: id in Attached(m, p, ks, next) <==> id in m || next <= id < next + |ks|
    decreases |ks|
  {
    if ks != [] {
      AttachedDomain(m, p, ks[..|ks| - 1], next);
    }
  }

  /** Attaching appends the new numbers, in order, to the children of `p`. */
  lemma {:induction false} AttachedParent(m: map<ItemId, Item>, p: ItemId, ks: seq<Kind>, next: ItemId)
    requires p in m && p < next
    ensures Attached(m, p, ks, next)[p] == m[p].(children := m[p].children + Ids(next, |ks|))
    decreases |ks|
  {
    if ks == [] {
      assert m[p].children + Ids(next, 0) == m[p].children;
    } else {
      AttachedParent(m, p, ks[..|ks| - 1], next);
      assert Ids(next, |ks| - 1) + [next + |ks| - 1] == Ids(next, |ks|);
    }
  }

  /** Each new number holds a fresh item of its kind whose parent is `p`. */
  lemma {:induction false} AttachedNew(m: map<ItemId, Item>, p: ItemId, ks: seq<Kind>, next: ItemId, j: nat)
    requires p in m && p < next && j < |ks|
    ensures next + j in Attached(m, p, ks, next)
    ensures Attached(m, p, ks, next)[next + j] == NewItem(ks[j], Some(p))
    decreases |ks|
  {
    if j < |ks| - 1 {
      AttachedNew(m, p, ks[..|ks| - 1], next, j);
    }
  }

  /** Attaching leaves every item other than `p` and the new ones as it was. */
  lemma {:induction false} AttachedOthers(m: map<ItemId, Item>, p: ItemId, ks: seq<Kind>, next: ItemId, id: ItemId)
    requires p in m && p < next && id in m && id != p && !(next <= id < next + |ks|)
    ensures id in Attached(m, p, ks, next) && Attached(m, p, ks, next)[id] == m[id]
    decreases |ks|
  {
    if ks != [] {
      AttachedOthers(m, p, ks[..|ks| - 1], next, id);
    }
  }

  /** Adding one more item to the arena `r` built so far extends it by exactly that item. */
  lemma AttachedStep(m: map<ItemId, Item>, p: ItemId, ks: seq<Kind>, k: Kind, next: ItemId, r: map<ItemId, Item>, n: nat)
    requires p in m && p < next && r == Attached(m, p, ks, next) && n == |ks|
    ensures p in r && AttachOne(r, p, k, next + n) == Attached(m, p, ks + [k], next)
  {
    assert (ks + [k])[..|ks|] == ks;
  }

  /** The arena with the `seen` flag of item `id` set to `b`. */
  function Mark(m: map<ItemId, Item>, id: ItemId, b: bool): (r: map<ItemId, Item>)
    requires id in m
    ensures r.Keys == m.Keys && r[id].seen == b && r[id].(seen := m[id].seen) == m[id]
  {
    m[id := m[id].(seen := b)]
  }

  /** A session or scene entry marked loaded and visible, or neither. */
  function WithLoaded(k: Kind, b: bool): (r: Kind)
    requires IsRemovable(k)
    ensures IsRemovable(r) && r.SessionItem? == k.SessionItem?
    ensures r.entry.loaded == b && r.entry.visible == b
    ensures r.entry.name == k.entry.name && r.entry.filepath == k.entry.filepath
  {
    k.(entry := k.entry.(loaded := b, visible := b))
  }

  /** A session or scene entry under a new name. */
  function Renamed(k: Kind, name: string): (r: Kind)
    requires IsRemovable(k)
    ensures IsRemovable(r) && r.SessionItem? == k.SessionItem? && r.entry.name == name
    ensures r.entry.filepath == k.entry.filepath && r.entry.loaded == k.entry.loaded
  {
    k.(entry := k.entry.(name := name))
  }

  /** The list without `x`, the others in their order. */
  function Without(s: seq<ItemId>, x: ItemId): (r: seq<ItemId>)
    ensures forall y :: y in r <==> y in s && y != x
    ensures |r| <= |s|
    decreases |s|
  {
    if s == [] then [] else if s[0] == x then Without(s[1..], x) else [s[0]] + Without(s[1..], x)
  }

  /** Taking one number out of a duplicate-free list shortens it by one and keeps it duplicate-free. */
  lemma {:induction false} WithoutDistinct(s: seq<ItemId>, x: ItemId)
    requires forall i, j :: 0 <= i < j < |s| ==> s[i] != s[j]
    ensures forall i, j :: 0 <= i < j < |Without(s, x)| ==> Without(s, x)[i] != Without(s, x)[j]
    ensures |Without(s, x)| == if x in s then |s| - 1 else |s|
    decreases |s|
  {
    if s != [] {
      WithoutDistinct(s[1..], x);
      if s[0] != x {
        var r := Without(s, x);
        assert r == [s[0]] + Without(s[1..], x);
        assert s[0] !in s[1..];
        forall i, j | 0 <= i < j < |r| ensures r[i] != r[j] {
          if i == 0 {
            assert r[j] in Without(s[1..], x);
          }
        }
      } else {
        assert x !in s[1..];
      }
    }
  }

  /**
   * The arena's own invariant: every number is below `next`, a parent has a
   * smaller number than its child and is in the arena, and only sessions and
   * scenes carry a line editor.
   */
  ghost predicate WellFormed(m: map<ItemId, Item>, next: ItemId) {
    && (forall id :: id in m ==> id < next)
    && (forall id {:trigger m[id]} :: id in m && m[id].parent.Some? ==> m[id].parent.value < id && m[id].parent.value in m)
    && (forall id {:trigger m[id]} :: id in m && m[id].hasEditor ==> IsRemovable(m[id].kind))
  }

  /** Adding one item under an item of the arena keeps the arena well formed. */
  lemma AttachOneWellFormed(m: map<ItemId, Item>, p: ItemId, k: Kind, id: ItemId)
    requires WellFormed(m, id) && p in m && p < id
    ensures WellFormed(AttachOne(m, p, k, id), id + 1)
  {
    var r := AttachOne(m, p, k, id);
    forall x | x in r && r[x].hasEditor ensures IsRemovable(r[x].kind) {
      assert x != id;
    }
  }

  /** Adding items under an item of the arena keeps the arena well formed. */
  lemma {:induction false} AttachedWellFormed(m: map<ItemId, Item>, p: ItemId, ks: seq<Kind>, next: ItemId)
    requires WellFormed(m, next) && p in m && p < next
    ensures WellFormed(Attached(m, p, ks, next), next + |ks|)
    decreases |ks|
  {
    if ks != [] {
      var init := ks[..|ks| - 1];
      AttachedWellFormed(m, p, init, next);
      AttachOneWellFormed(Attached(m, p, init, next), p, ks[|ks| - 1], next + |init|);
    }
  }

  /** Adding items under an item of the arena keeps every old item, with its parent and kind. */
  lemma {:induction false} AttachedKeeps(m: map<ItemId, Item>, p: ItemId, ks: seq<Kind>, next: ItemId)
    requires p in m && p < next && forall x :: x in m ==> x < next
    ensures forall x :: x in m ==>
      x in Attached(m, p, ks, next) && Attached(m, p, ks, next)[x].parent == m[x].parent
      && Attached(m, p, ks, next)[x].kind == m[x].kind
    decreases |ks|
  {
    if ks != [] {
      var init := ks[..|ks| - 1];
      AttachedKeeps(m, p, init, next);
      AttachedDomain(m, p, init, next);
    }
  }

  /**
   * The tree's invariant: a well-formed arena, root items that are in it,
   * have no parent and appear once, and an edited item that is in it.
   */
  ghost predicate TreeValid(m: map<ItemId, Item>, next: ItemId, topLevel: seq<ItemId>, editing: Option<ItemId>) {
    && WellFormed(m, next)
    && (forall i :: 0 <= i < |topLevel| ==> topLevel[i] in m && m[topLevel[i]].parent.None?)
    && (forall i, j :: 0 <= i < j < |topLevel| ==> topLevel[i] != topLevel[j])
    && (editing.Some? ==> editing.value in m)
  }

  /** Adding items under an item keeps the tree's invariant. */
  lemma AttachedValid(m: map<ItemId, Item>, p: ItemId, ks: seq<Kind>, next: ItemId,
                      topLevel: seq<ItemId>, editing: Option<ItemId>, m2: map<ItemId, Item>)
    requires TreeValid(m, next, topLevel, editing) && p in m && p < next
    requires m2 == Attached(m, p, ks, next)
    ensures TreeValid(m2, next + |ks|, topLevel, editing)
  {
    AttachedWellFormed(m, p, ks, next);
    AttachedKeeps(m, p, ks, next);
  }

  /** Building the items of an object's children under it is what `children` does for an object. */
  lemma ObjectChildrenDone(m: map<ItemId, Item>, id: ItemId, next: ItemId, os: seq<AbcObject>,
                           m2: map<ItemId, Item>, ids: seq<ItemId>)
    requires id in m && id < next && (m[id].kind.ObjectItem? || m[id].kind.CameraItem?)
    requires os == (if m[id].seen then [] else m[id].kind.obj.children)
    requires m2 == Attached(m, id, ObjectChildren(os), next) && ids == Ids(next, |os|)
    ensures ChildrenDone(m, id, next, Ok(ids), m2, next + |os|)
  {
    var ks := ObjectChildren(os);
    assert Created(m[id]) == Ok(ks);
    AttachedParent(m, id, ks, next);
    MarkSame(m2, id);
  }

  /** An item whose children cannot be built raises and leaves the arena as it was. */
  lemma FailedChildrenDone(m: map<ItemId, Item>, id: ItemId, next: ItemId)
    requires id in m && id < next && Created(m[id]).Err?
    ensures ChildrenDone(m, id, next, Err(AttributeError), m, next)
  {
  }

  /** Setting the `seen` flag to the value it has changes nothing. */
  lemma MarkSame(m: map<ItemId, Item>, id: ItemId)
    requires id in m
    ensures Mark(m, id, m[id].seen) == m
  {
  }

  /** Setting the `seen` flag keeps the tree's invariant. */
  lemma MarkValid(m: map<ItemId, Item>, next: ItemId, topLevel: seq<ItemId>, editing: Option<ItemId>, id: ItemId, b: bool)
    requires TreeValid(m, next, topLevel, editing) && id in m
    ensures TreeValid(Mark(m, id, b), next, topLevel, editing)
  {
  }

  /** An expanded session answers its children and changes nothing. */
  lemma SeenSessionDone(m: map<ItemId, Item>, id: ItemId, next: ItemId)
    requires id in m && id < next && m[id].kind.SessionItem? && m[id].seen
    ensures ChildrenDone(m, id, next, Ok(m[id].children), m, next)
  {
    assert Mark(Attached(m, id, [], next), id, true) == m;
  }

  /** Building the items of a session's entries and marking it expanded is what `children` does for a new session. */
  lemma SessionChildrenDone(m: map<ItemId, Item>, id: ItemId, next: ItemId, m2: map<ItemId, Item>, ids: seq<ItemId>)
    requires id in m && id < next && m[id].kind.SessionItem? && !m[id].seen && m[id].kind.entry.SessionEntry?
    requires m2 == Attached(m, id, SessionChildren(m[id].kind.entry.items), next)
    requires ids == Ids(next, |SessionChildren(m[id].kind.entry.items)|)
    ensures ChildrenDone(m, id, next, Ok(ids), Mark(m2, id, true), next + |ids|)
  {
  }

  /** Building one object item for the top of the archive is what `children` does for a scene. */
  lemma SceneChildrenDone(m: map<ItemId, Item>, id: ItemId, next: ItemId, m2: map<ItemId, Item>)
    requires id in m && id < next && m[id].kind.SceneItem? && m[id].kind.entry.SceneEntry?
    requires m2 == AttachOne(m, id, ObjectItem(m[id].kind.entry.top), next)
    ensures ChildrenDone(m, id, next, Ok([next]), m2, next + 1)
  {
    var k := ObjectItem(m[id].kind.entry.top);
    AttachedStep(m, id, [], k, next, m, 0);
    assert [k] == [] + [k];
    MarkSame(m2, id);
  }

  /** One entry of the loop over a session's entries: it adds its item, if it has one, as the next child of `p`. */
  method AttachEntry(ghost m: map<ItemId, Item>, p: ItemId, es: seq<Entry>, next: ItemId, i: nat,
                     ghost ks: seq<Kind>, r: map<ItemId, Item>, ids: seq<ItemId>, n: nat)
    returns (ghost ks2: seq<Kind>, r2: map<ItemId, Item>, ids2: seq<ItemId>, n2: nat)
    requires p in m && p < next && i < |es|
    requires ks == SessionChildren(es[..i]) && r == Attached(m, p, ks, next) && n == |ks| && ids == Ids(next, n)
    ensures ks2 == SessionChildren(es[..i + 1]) && r2 == Attached(m, p, ks2, next)
    ensures n2 == |ks2| && ids2 == Ids(next, n2)
  {
    SessionChildrenStep(es, i);
    var add := EntryChild(es[i]);
    if add != [] {
      var k := add[0];
      assert add == [k];
      AttachedStep(m, p, ks, k, next, r, n);
      IdsSnoc(next, n);
      ks2, r2, ids2, n2 := ks + [k], AttachOne(r, p, k, next + n), ids + [next + n], n + 1;
    } else {
      assert ks + add == ks;
      ks2, r2, ids2, n2 := ks, r, ids, n;
    }
  }

  /** The loop of `children` over a session's entries, on the arena as a value. */
  method AttachEntries(m: map<ItemId, Item>, p: ItemId, es: seq<Entry>, next: ItemId)
    returns (r: map<ItemId, Item>, ids: seq<ItemId>)
    requires p in m && p < next
    ensures r == Attached(m, p, SessionChildren(es), next)
    ensures ids == Ids(next, |SessionChildren(es)|)
  {
    r, ids := m, [];
    ghost var ks: seq<Kind> := [];
    var i, n := 0, 0;
    while i < |es|
      invariant 0 <= i <= |es|
      invariant ks == SessionChildren(es[..i])
      invariant r == Attached(m, p, ks, next)
      invariant n == |ks| && ids == Ids(next, n)
    {
      ks, r, ids, n := AttachEntry(m, p, es, next, i, ks, r, ids, n);
      i := i + 1;
    }
    assert es[..i] == es;
  }

  /** One child of the loop over an object's children: its item becomes the next child of `p`. */
  method AttachObject(ghost m: map<ItemId, Item>, p: ItemId, os: seq<AbcObject>, next: ItemId, i: nat,
                      r: map<ItemId, Item>, ids: seq<ItemId>)
    returns (r2: map<ItemId, Item>, ids2: seq<ItemId>)
    requires p in m && p < next && i < |os|
    requires r == Attached(m, p, ObjectChildren(os[..i]), next) && ids == Ids(next, i)
    ensures r2 == Attached(m, p, ObjectChildren(os[..i + 1]), next) && ids2 == Ids(next, i + 1)
  {
    ghost var before := ObjectChildren(os[..i]);
    var k := ObjectChild(os[i]);
    assert os[..i + 1][..i] == os[..i];
    assert ObjectChildren(os[..i + 1]) == before + [k];
    AttachedStep(m, p, before, k, next, r, i);
    IdsSnoc(next, i);
    r2, ids2 := AttachOne(r, p, k, next + i), ids + [next + i];
  }

  /** The loop of `children` over an object's children, on the arena as a value. */
  method AttachObjects(m: map<ItemId, Item>, p: ItemId, os: seq<AbcObject>, next: ItemId)
    returns (r: map<ItemId, Item>, ids: seq<ItemId>)
    requires p in m && p < next
    ensures r == Attached(m, p, ObjectChildren(os), next)
    ensures ids == Ids(next, |os|)
  {
    r, ids := m, [];
    var i := 0;
    while i < |os|
      invariant 0 <= i <= |os|
      invariant r == Attached(m, p, ObjectChildren(os[..i]), next)
      invariant ids == Ids(next, i)
    {
      r, ids := AttachObject(m, p, os, next, i, r, ids);
      i := i + 1;
    }
    assert os[..i] == os;
  }

  /**
   * What `children` on item `id` of arena `m` does, `next` being the next free
   * number: it answers `r`, leaves arena `m2` and next free number `next2`.
   * It raises exactly when `Created` does, and then changes nothing; otherwise
   * the items of `Created` are added under `id` with the next numbers, and a
   * session marks itself expanded.  An expanded session answers its existing
   * children, everything else the numbers of the items just built.
   */
  ghost predicate ChildrenDone(m: map<ItemId, Item>, id: ItemId, next: ItemId,
                               r: Result<seq<ItemId>>, m2: map<ItemId, Item>, next2: ItemId)
    requires id in m && id < next
  {
    && (r.Err? <==> Created(m[id]).Err?)
    && (r.Err? ==> r.error == AttributeError && m2 == m && next2 == next)
    && (r.Ok? ==>
        var ks := Created(m[id]).value;
        && next2 == next + |ks|
        && m2 == Mark(Attached(m, id, ks, next), id, m[id].seen || m[id].kind.SessionItem?)
        && r.value == (if m[id].kind.SessionItem? && m[id].seen then m[id].children else Ids(next, |ks|)))
  }

  /** Setting the `seen` flag twice keeps the second value. */
  lemma MarkTwice(m: map<ItemId, Item>, id: ItemId, a: bool, b: bool)
    requires id in m
    ensures Mark(Mark(m, id, a), id, b) == Mark(m, id, b)
  {
  }

  /** The outcome of building a child as written: on failure the half-built child is left behind. */
  function BuiltAsWritten(b: (Item, Outcome), ks: seq<Kind>): (r: (Result<seq<Kind>>, Option<Item>))
    ensures b.1.Fail? ==> r == (Err(b.1.error), Some(b.0))
    ensures b.1.Pass? ==> r == (Ok(ks), None)
  {
    if b.1.Fail? then (Err(b.1.error), Some(b.0)) else (Ok(ks), None)
  }

  /**
   * `children` of item `id` as written: as `Created`, except that every object
   * item is built through the constructor as written.  So a scene raises, and
   * so does an object not yet expanded that has a child; the object item being
   * built when it raised is the second component.
   */
  function CreatedAsWritten(item: Item, id: ItemId): (r: (Result<seq<Kind>>, Option<Item>))
    ensures item.kind.SessionItem? ==> r == (Created(item), None)
    ensures r.1.Some? ==> r.0.Err? && r.1.value.parent == Some(id)
  {
    match item.kind
    case SessionItem(_) => (Created(item), None)
    case SceneItem(e) =>
      if !e.SceneEntry? then (Err(AttributeError), None)
      else BuiltAsWritten(NewObjectItemAsWritten(e.top, Some(id), false), [ObjectItem(e.top)])
    case _ =>
      var os := item.kind.obj.children;
      if item.seen || os == [] then (Ok([]), None)
      else BuiltAsWritten(NewObjectItemAsWritten(os[0], Some(id), os[0].isCamera), ObjectChildren(os))
  }

  /**
   * `handle_item_expanded` as written, on the arena as a value: the outcome,
   * the arena and the next free number.  An item already expanded changes
   * nothing.  Otherwise its children are built as written and it is marked
   * expanded; when building raises, the half-built child stays attached as
   * the item's last child and the item is not marked.
   */
  function ExpandAsWritten(m: map<ItemId, Item>, id: ItemId, next: ItemId): (r: (Outcome, map<ItemId, Item>, ItemId))
    requires id in m && id < next
    ensures m.Keys <= r.1.Keys && next <= r.2
    ensures id in r.1 && (r.1[id].seen <==> r.0.Pass?)
    ensures m[id].seen ==> r == (Pass, m, next)
  {
    if m[id].seen then (Pass, m, next)
    else
      var c := CreatedAsWritten(m[id], id);
      match c.0
      case Err(e) =>
        if c.1.Some? then (Fail(e), m[next := c.1.value][id := m[id].(children := m[id].children + [next])], next + 1)
        else (Fail(e), m, next)
      case Ok(ks) =>
        AttachedDomain(m, id, ks, next);
        (Pass, Mark(Attached(m, id, ks, next), id, true), next + |ks|)
  }

  /**
   * As written, expanding a scene for the first time raises AttributeError
   * and leaves the scene unexpanded.  The object item for the top of its
   * archive was attached before the constructor raised, so it stays, half
   * built, as the scene's last child; every later expansion adds another.
   * A scene item holding a session raises before building anything.
   */
  lemma SceneExpansionAsWrittenFails(m: map<ItemId, Item>, id: ItemId, next: ItemId)
    requires id in m && id < next && m[id].kind.SceneItem? && !m[id].seen
    ensures var r := ExpandAsWritten(m, id, next);
      && r.0 == Fail(AttributeError) && !r.1[id].seen
      && (m[id].kind.entry.SceneEntry? ==>
        && r.2 == next + 1 && r.1[id] == m[id].(children := m[id].children + [next])
        && r.1[next].kind == ObjectItem(m[id].kind.entry.top) && r.1[next].parent == Some(id)
        && !r.1[next].indicator && r.1[next].children == []
        && forall k :: k in m && k != id && k != next ==> r.1[k] == m[k])
      && (!m[id].kind.entry.SceneEntry? ==> r == (Fail(AttributeError), m, next))
  {
    if m[id].kind.entry.SceneEntry? {
      ObjectItemAsWrittenFails(m[id].kind.entry.top, Some(id), false);
    }
  }

  /**
   * As written, expanding an object or camera item with a child for the first
   * time raises AttributeError while building the first child, which stays
   * attached, half built, as the item's last child; the item is not marked
   * expanded.
   */
  lemma ObjectExpansionAsWrittenFails(m: map<ItemId, Item>, id: ItemId, next: ItemId)
    requires id in m && id < next && !IsRemovable(m[id].kind) && !m[id].seen && m[id].kind.obj.children != []
    ensures var r, c := ExpandAsWritten(m, id, next), m[id].kind.obj.children[0];
      && r.0 == Fail(AttributeError) && !r.1[id].seen
      && r.2 == next + 1 && r.1[id] == m[id].(children := m[id].children + [next])
      && r.1[next].kind == (if c.isCamera then CameraItem(c) else ObjectItem(c)) && r.1[next].parent == Some(id)
      && !r.1[next].indicator && r.1[next].children == []
      && forall k :: k in m && k != id && k != next ==> r.1[k] == m[k]
  {
    var c := m[id].kind.obj.children[0];
    ObjectItemAsWrittenFails(c, Some(id), c.isCamera);
  }

  /** As written, expanding a session does what the corrected model says: its children are the same. */
  lemma SessionExpansionAsWritten(m: map<ItemId, Item>, id: ItemId, next: ItemId)
    requires id in m && id < next && m[id].kind.SessionItem? && !m[id].seen
    ensures Created(m[id]).Err? ==> ExpandAsWritten(m, id, next) == (Fail(AttributeError), m, next)
    ensures Created(m[id]).Ok? ==>
      ExpandAsWritten(m, id, next) == (Pass, Mark(Attached(m, id, Created(m[id]).value, next), id, true),
                                       next + |Created(m[id]).value|)
  {
    var c := CreatedAsWritten(m[id], id);
    assert c == (Created(m[id]), None);
  }

  /** `children` of a session item, on the arena as a value: the arena and next free number it leaves. */
  method SessionChildrenOf(m: map<ItemId, Item>, id: ItemId, next: ItemId, ghost topLevel: seq<ItemId>, ghost editing: Option<ItemId>)
    returns (r: Result<seq<ItemId>>, m2: map<ItemId, Item>, next2: ItemId)
    requires TreeValid(m, next, topLevel, editing) && id in m && m[id].kind.SessionItem?
    ensures TreeValid(m2, next2, topLevel, editing)
    ensures ChildrenDone(m, id, next, r, m2, next2)
  {
    var item := m[id];
    if item.seen {
      SeenSessionDone(m, id, next);
      return Ok(item.children), m, next;
    }
    if !item.kind.entry.SessionEntry? {
      FailedChildrenDone(m, id, next);
      return Err(AttributeError), m, next;
    }
    var es := item.kind.entry.items;
    var built, ids := AttachEntries(m, id, es, next);
    AttachedValid(m, id, SessionChildren(es), next, topLevel, editing, built);
    SessionChildrenDone(m, id, next, built, ids);
    MarkValid(built, next + |ids|, topLevel, editing, id, true);
    return Ok(ids), Mark(built, id, true), next + |ids|;
  }

  /** `children` of an object or camera item, on the arena as a value. */
  method ObjectChildrenOf(m: map<ItemId, Item>, id: ItemId, next: ItemId, ghost topLevel: seq<ItemId>, ghost editing: Option<ItemId>)
    returns (r: Result<seq<ItemId>>, m2: map<ItemId, Item>, next2: ItemId)
    requires TreeValid(m, next, topLevel, editing) && id in m && (m[id].kind.ObjectItem? || m[id].kind.CameraItem?)
    ensures TreeValid(m2, next2, topLevel, editing)
    ensures ChildrenDone(m, id, next, r, m2, next2)
  {
    var os := if m[id].seen then [] else m[id].kind.obj.children;
    var built, ids := AttachObjects(m, id, os, next);
    AttachedValid(m, id, ObjectChildren(os), next, topLevel, editing, built);
    ObjectChildrenDone(m, id, next, os, built, ids);
    return Ok(ids), built, next + |os|;
  }

  class ObjectTree {
    /** Every item of the tree, by number. */
    var items: map<ItemId, Item>
    /** The items at the root, in display order. */
    var topLevel: seq<ItemId>
    /** The number the next item gets. */
    var nextId: ItemId
    /** The item last double-clicked (`_item`), if any. */
    var editing: Option<ItemId>

    ghost predicate Valid()
      reads this
    {
      TreeValid(items, nextId, topLevel, editing)
    }

    constructor ()
      ensures Valid() && items == map[] && topLevel == [] && nextId == 0 && editing == None
    {
      items := map[];
      topLevel := [];
      nextId := 0;
      editing := None;
    }

    /** Adds a session or scene item at the root, after the others. */
    method AddTopLevelItem(k: Kind) returns (id: ItemId)
      requires Valid() && IsRemovable(k)
      modifies this`items, this`topLevel, this`nextId
      ensures Valid()
      ensures id == old(nextId) && nextId == old(nextId) + 1
      ensures items == old(items)[id := NewEntryItem(k, None)]
      ensures topLevel == old(topLevel) + [id]
    {
      id := nextId;
      items := items[id := NewEntryItem(k, None)];
      topLevel := topLevel + [id];
      nextId := nextId + 1;
    }

    /** The item and its ancestors, nearest first, ending at an item without parent. */
    ghost function Chain(id: ItemId): (c: seq<ItemId>)
      requires Valid() && id in items
      reads this
      ensures |c| >= 1 && c[0] == id
      ensures forall j :: 0 <= j < |c| ==> c[j] in items
      ensures forall j :: 0 <= j < |c| - 1 ==> items[c[j]].parent == Some(c[j + 1])
      ensures items[c[|c| - 1]].parent.None?
      decreases id
    {
      match items[id].parent
      case None => [id]
      case Some(p) => [id] + Chain(p)
    }

    ghost predicate IsScene(id: ItemId)
      reads this
      requires id in items
    {
      items[id].kind.SceneItem?
    }

    /** The first scene item met walking up from `id`. */
    ghost function NearestScene(id: ItemId): Option<ItemId>
      requires Valid() && id in items
      reads this
      decreases id
    {
      if IsScene(id) then Some(id)
      else match items[id].parent
        case None => None
        case Some(p) => NearestScene(p)
    }

    /**
     * The nearest scene is the first scene item of the chain from the item up
     * to the root, and there is none exactly when no item of the chain is a scene.
     */
    lemma {:induction false} NearestSceneIsNearest(id: ItemId) returns (k: nat)
      requires Valid() && id in items
      ensures NearestScene(id).None? ==> forall j :: 0 <= j < |Chain(id)| ==> !IsScene(Chain(id)[j])
      ensures NearestScene(id).Some? ==>
        && k < |Chain(id)| && Chain(id)[k] == NearestScene(id).value && IsScene(Chain(id)[k])
        && forall j :: 0 <= j < k ==> !IsScene(Chain(id)[j])
      decreases id
    {
      if IsScene(id) {
        k := 0;
      } else {
        match items[id].parent
        case None =>
          k := 0;
        case Some(p) =>
          var k0 := NearestSceneIsNearest(p);
          assert Chain(id) == [id] + Chain(p);
          k := k0 + 1;
      }
    }

    /** `scene`: walks up the parents to the nearest scene item. */
    method SceneOf(id: ItemId) returns (r: Option<ItemId>)
      requires Valid() && id in items
      ensures r == NearestScene(id)
      ensures r.Some? ==> r.value in items && items[r.value].kind.SceneItem? && r.value <= id
    {
      var cur: Option<ItemId> := Some(id);
      while cur.Some?
        invariant cur.Some? ==> cur.value in items && cur.value <= id && NearestScene(cur.value) == NearestScene(id)
        invariant cur.None? ==> NearestScene(id).None?
        decreases if cur.Some? then cur.value + 1 else 0
      {
        if items[cur.value].kind.SceneItem? {
          return cur;
        }
        cur := items[cur.value].parent;
      }
      return None;
    }

    /** `load`: the entry becomes loaded and visible and the item checked. */
    method Load(id: ItemId)
      requires Valid() && id in items && IsRemovable(items[id].kind)
      modifies this`items
      ensures Valid()
      ensures items == old(items)[id := old(items)[id].(kind := WithLoaded(old(items)[id].kind, true), checked := true)]
    {
      items := items[id := items[id].(kind := WithLoaded(items[id].kind, true), checked := true)];
    }

    /** `unload`: the entry becomes unloaded and hidden and the item unchecked. */
    method Unload(id: ItemId)
      requires Valid() && id in items && IsRemovable(items[id].kind)
      modifies this`items
      ensures Valid()
      ensures items == old(items)[id := old(items)[id].(kind := WithLoaded(old(items)[id].kind, false), checked := false)]
    {
      items := items[id := items[id].(kind := WithLoaded(items[id].kind, false), checked := false)];
    }

    /** Builds one item of kind `k` as the last child of `p`. */
    method AddChild(p: ItemId, k: Kind) returns (c: ItemId)
      requires Valid() && p in items
      modifies this`items, this`nextId
      ensures Valid()
      ensures c == old(nextId) && nextId == old(nextId) + 1
      ensures items == AttachOne(old(items), p, k, c)
    {
      c := nextId;
      items := AttachOne(items, p, k, c);
      nextId := nextId + 1;
    }

    /**
     * `SessionTreeWidgetItem.children`: an expanded session answers its
     * existing children; otherwise it builds the items of its entries and marks
     * itself expanded.  A scene shown as a session has no entries and raises.
     */
    method SessionItemChildren(id: ItemId) returns (r: Result<seq<ItemId>>)
      requires Valid() && id in items && items[id].kind.SessionItem?
      modifies this`items, this`nextId
      ensures Valid()
      ensures ChildrenDone(old(items), id, old(nextId), r, items, nextId)
    {
      r, items, nextId := SessionChildrenOf(items, id, nextId, topLevel, editing);
    }

    /** `SceneTreeWidgetItem.children`: one object item for the top of the scene's archive. */
    method SceneItemChildren(id: ItemId) returns (r: Result<seq<ItemId>>)
      requires Valid() && id in items && items[id].kind.SceneItem?
      modifies this`items, this`nextId
      ensures Valid()
      ensures ChildrenDone(old(items), id, old(nextId), r, items, nextId)
    {
      var e := items[id].kind.entry;
      if !e.SceneEntry? {
        FailedChildrenDone(items, id, nextId);
        return Err(AttributeError);
      }
      var c := AddChild(id, ObjectItem(e.top));
      SceneChildrenDone(old(items), id, old(nextId), items);
      return Ok([c]);
    }

    /**
     * `ObjectTreeWidgetItem.children`: an object not yet expanded builds an
     * object or camera item for each of its children; an expanded one builds nothing.
     */
    method ObjectItemChildren(id: ItemId) returns (r: Result<seq<ItemId>>)
      requires Valid() && id in items && (items[id].kind.ObjectItem? || items[id].kind.CameraItem?)
      modifies this`items, this`nextId
      ensures Valid()
      ensures ChildrenDone(old(items), id, old(nextId), r, items, nextId)
    {
      r, items, nextId := ObjectChildrenOf(items, id, nextId, topLevel, editing);
    }

    /** `children`, dispatched on the class of the item. */
    method Children(id: ItemId) returns (r: Result<seq<ItemId>>)
      requires Valid() && id in items
      modifies this`items, this`nextId
      ensures Valid()
      ensures ChildrenDone(old(items), id, old(nextId), r, items, nextId)
    {
      if items[id].kind.SessionItem? {
        r := SessionItemChildren(id);
      } else if items[id].kind.SceneItem? {
        r := SceneItemChildren(id);
      } else {
        r := ObjectItemChildren(id);
      }
    }

    /**
     * `handle_item_expanded`: builds the children of an item the first time it
     * is expanded and marks it expanded; a later expansion changes nothing.
     */
    method HandleItemExpanded(id: ItemId) returns (r: Outcome)
      requires Valid() && id in items
      modifies this`items, this`nextId
      ensures Valid()
      ensures old(items)[id].seen ==> r.Pass? && items == old(items) && nextId == old(nextId)
      ensures !old(items)[id].seen ==> (r.Fail? <==> Created(old(items)[id]).Err?)
      ensures r.Fail? ==> items == old(items) && nextId == old(nextId)
      ensures !old(items)[id].seen && r.Pass? ==>
        var ks := Created(old(items)[id]).value;
        && id in items && items[id].seen
        && nextId == old(nextId) + |ks|
        && items == Mark(Attached(old(items), id, ks, old(nextId)), id, true)
    {
      if !items[id].seen {
        var c := Children(id);
        if c.Err? {
          return Fail(c.error);
        }
        ghost var built := Attached(old(items), id, Created(old(items)[id]).value, old(nextId));
        MarkTwice(built, id, old(items)[id].kind.SessionItem?, true);
        items := items[id := items[id].(seen := true)];
      }
      return Pass;
    }

    /**
     * `remove_item`: takes the given item, or else the first selected one, off
     * the root when it is a removable item without parent; otherwise nothing
     * changes.  Answers the item removed.
     */
    method RemoveItem(item: Option<ItemId>, selection: seq<ItemId>) returns (removed: Option<ItemId>)
      requires Valid()
      requires item.Some? ==> item.value in items
      requires forall i :: 0 <= i < |selection| ==> selection[i] in items
      modifies this`topLevel
      ensures Valid()
      ensures var target := if item.None? && |selection| > 0 then Some(selection[0]) else item;
        && (removed.Some? <==> target.Some? && items[target.value].parent.None? && IsRemovable(items[target.value].kind))
        && (removed.Some? ==> removed == target && topLevel == Without(old(topLevel), target.value))
        && (removed.None? ==> topLevel == old(topLevel))
    {
      var target := item;
      if target.None? && |selection| > 0 {
        target := Some(selection[0]);
      }
      if target.None? || items[target.value].parent.Some? || !IsRemovable(items[target.value].kind) {
        return None;
      }
      WithoutDistinct(topLevel, target.value);
      var rest := Without(topLevel, target.value);
      forall i | 0 <= i < |rest| ensures rest[i] in items && items[rest[i]].parent.None? {
        assert rest[i] in topLevel;
      }
      topLevel := rest;
      return target;
    }

    /**
     * `handle_item_double_clicked`: remembers the item; a session or scene gets
     * a line editor holding its name, and that name as the old value.
     */
    method HandleItemDoubleClicked(id: ItemId)
      requires Valid() && id in items
      modifies this`items, this`editing
      ensures Valid() && editing == Some(id)
      ensures IsRemovable(old(items)[id].kind) ==>
        items == old(items)[id := old(items)[id].(hasEditor := true, editorShown := true,
                                                  oldValue := old(items)[id].kind.entry.name)]
      ensures !IsRemovable(old(items)[id].kind) ==> items == old(items)
    {
      editing := Some(id);
      var item := items[id];
      if !IsRemovable(item.kind) {
        return;
      }
      items := items[id := item.(hasEditor := true, editorShown := true, oldValue := item.kind.entry.name)];
    }

    /**
     * `handle_done_editing` with the editor's final text: a changed text
     * renames the session or scene; the editor leaves the cell and no item is
     * being edited any more.  With no item remembered nothing happens; an item
     * remembered without an editor raises.
     */
    method HandleDoneEditing(text: string) returns (r: Outcome)
      requires Valid()
      modifies this`items, this`editing
      ensures Valid()
      ensures old(editing).None? ==> r.Pass? && items == old(items) && editing == old(editing)
      ensures old(editing).Some? && !old(items)[old(editing).value].hasEditor ==>
        r == Fail(AttributeError) && items == old(items) && editing == old(editing)
      ensures old(editing).Some? && old(items)[old(editing).value].hasEditor ==>
        var id, item := old(editing).value, old(items)[old(editing).value];
        && r.Pass? && editing.None?
        && items == old(items)[id := item.(kind := if text != item.oldValue then Renamed(item.kind, text) else item.kind,
                                           editorShown := false)]
    {
      if editing.None? {
        return Pass;
      }
      var id := editing.value;
      var item := items[id];
      if !item.hasEditor {
        return Fail(AttributeError);
      }
      var kind := item.kind;
      if text != item.oldValue {
        kind := Renamed(kind, text);
      }
      items := items[id := item.(kind := kind, editorShown := false)];
      editing := None;
      return Pass;
    }
  }

  /**
   * Finishing an edit whose text equals the name shown when it began leaves
   * the entry's name as it was, and a different text becomes the name.
   */
  lemma DoneEditingName(item: Item, text: string)
    requires item.hasEditor && IsRemovable(item.kind) && item.oldValue == item.kind.entry.name
    ensures (if text != item.oldValue then Renamed(item.kind, text) else item.kind).entry.name == text
  {
  }
}
