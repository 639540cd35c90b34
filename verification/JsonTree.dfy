/**
 * JSON documents, and the edit of one entry that a pointer leads to.
 */
module JsonTree {
  import opened Wrappers

  datatype Json =
    | Null
    | Bool(on: bool)
    | Number(n: int)
    | Text(text: string)
    | Array(items: seq<Json>)
    | Object(fields: map<string, Json>)

  type Pointer = seq<string>

  const ENABLED: string := "enabled"

  function Get(j: Json, key: string): Option<Json> {
    if j.Object? && key in j.fields then Some(j.fields[key]) else None
  }

  function OrNull(j: Option<Json>): Json {
    if j.Some? then j.value else Null
  }

  function Lookup(j: Json, path: Pointer): Option<Json> {
    if path == [] then Some(j)
    else
      match Get(j, path[0])
      case None => None
      case Some(child) => Lookup(child, path[1..])
  }

  lemma {:induction false} LookupAppend(j: Json, path: Pointer, rest: Pointer)
    ensures Lookup(j, path + rest) ==
            if Lookup(j, path).None? then None else Lookup(Lookup(j, path).value, rest)
    decreases |path|
  {
    if path == [] {
      assert path + rest == rest;
    } else {
      assert (path + rest)[1..] == path[1..] + rest;
      var child := Get(j, path[0]);
      if child.Some? { LookupAppend(child.value, path[1..], rest); }
    }
  }

  // --------------------------------------------------------------------- edit

  datatype Action = Configure(config: Json) | Enable(on: bool) | Delete

  datatype Outcome = Edited(document: Json) | MissingEntry | SourceChanged | InvalidSection | Panics

  /** Assigns to a key the way an index expression does: null becomes an object, anything else panics. */
  function Assign(parent: Json, key: string, value: Json): Outcome {
    match parent
    case Null => Edited(Object(map[key := value]))
    case Object(fields) => Edited(Object(fields[key := value]))
    case _ => Panics
  }

  function EditEntry(parent: Json, key: string, action: Action): Outcome {
    match action
    case Delete => if parent.Object? then Edited(Object(parent.fields - {key})) else InvalidSection
    case Configure(config) => Assign(parent, key, config)
    case Enable(on) =>
      if !parent.Object? && !parent.Null? then Panics
      else
        match Assign(OrNull(Get(parent, key)), ENABLED, Bool(on))
        case Edited(entry) => Assign(parent, key, entry)
        case other => other
  }

  function Edit(document: Json, pointer: Pointer, action: Action): Outcome {
    if pointer == [] then MissingEntry
    else if |pointer| == 1 then EditEntry(document, pointer[0], action)
    else
      match Get(document, pointer[0])
      case None => SourceChanged
      case Some(child) =>
        match Edit(child, pointer[1..], action)
        case Edited(edited) => Edited(Object(document.fields[pointer[0] := edited]))
        case other => other
  }

  /** An edit leaves the value at every path beside the pointer as it was. */
  lemma {:induction false} EditElsewhere(document: Json, pointer: Pointer, action: Action, q: Pointer)
    requires Edit(document, pointer, action).Edited?
    requires !(pointer <= q) && !(q <= pointer)
    ensures Lookup(Edit(document, pointer, action).document, q) == Lookup(document, q)
    decreases |pointer|
  {
    if |pointer| == 1 {
      assert q[0] != pointer[0];
    } else if q[0] == pointer[0] {
      assert pointer == [pointer[0]] + pointer[1..] && q == [q[0]] + q[1..];
      EditElsewhere(Get(document, pointer[0]).value, pointer[1..], action, q[1..]);
    }
  }

  /** Above the pointer there is an object before and after; only the last may have been null before. */
  lemma {:induction false} EditAbove(document: Json, pointer: Pointer, action: Action, n: nat)
    requires Edit(document, pointer, action).Edited? && n < |pointer|
    ensures Lookup(document, pointer[..n]).Some?
    ensures Lookup(document, pointer[..n]).value.Object?
            || (n == |pointer| - 1 && Lookup(document, pointer[..n]).value.Null?)
    ensures Lookup(Edit(document, pointer, action).document, pointer[..n]).Some?
    ensures Lookup(Edit(document, pointer, action).document, pointer[..n]).value.Object?
    decreases |pointer|
  {
    if n > 0 {
      assert pointer[..n] == [pointer[0]] + pointer[1..][..n - 1];
      EditAbove(Get(document, pointer[0]).value, pointer[1..], action, n - 1);
    }
  }

  /** At the pointer stands what the action says; enabling leaves the rest of the entry alone. */
  lemma {:induction false} EditAt(document: Json, pointer: Pointer, action: Action)
    requires Edit(document, pointer, action).Edited?
    ensures var edited := Edit(document, pointer, action).document;
            match action
            case Delete => Lookup(edited, pointer) == None
            case Configure(config) => Lookup(edited, pointer) == Some(config)
            case Enable(on) =>
              && Lookup(edited, pointer).Some?
              && Get(Lookup(edited, pointer).value, ENABLED) == Some(Bool(on))
              && forall key :: key != ENABLED ==>
                   Get(Lookup(edited, pointer).value, key) == Get(OrNull(Lookup(document, pointer)), key)
    decreases |pointer|
  {
    var edited := Edit(document, pointer, action).document;
    if |pointer| == 1 {
      assert pointer[1..] == [];
      assert Lookup(edited, pointer) == Get(edited, pointer[0]);
      assert Lookup(document, pointer) == Get(document, pointer[0]);
    } else {
      EditAt(Get(document, pointer[0]).value, pointer[1..], action);
    }
  }

  predicate ObjectOrNull(j: Json) {
    j.Object? || j.Null?
  }

  /**
   * Every outcome of an edit, decided by what stands where the entry is to be: no pointer, no
   * value above it, a section that cannot hold entries, or an entry that cannot be enabled.
   */
  lemma {:induction false} EditOutcome(document: Json, pointer: Pointer, action: Action)
    ensures var r := Edit(document, pointer, action);
            if pointer == [] then r == MissingEntry
            else
              match Lookup(document, pointer[..|pointer| - 1])
              case None => r == SourceChanged
              case Some(section) =>
                match action
                case Delete => if section.Object? then r.Edited? else r == InvalidSection
                case Configure(_) => if ObjectOrNull(section) then r.Edited? else r == Panics
                case Enable(_) =>
                  if ObjectOrNull(section) && ObjectOrNull(OrNull(Get(section, pointer[|pointer| - 1]))) then r.Edited?
                  else r == Panics
    decreases |pointer|
  {
    if |pointer| > 1 {
      assert pointer[..|pointer| - 1] == [pointer[0]] + pointer[1..][..|pointer| - 2];
      var child := Get(document, pointer[0]);
      if child.Some? { EditOutcome(child.value, pointer[1..], action); }
    }
  }

  /** For an entry that is there, an edit fails iff it enables an entry that is neither object nor null. */
  lemma {:induction false} EditOfPresentEntry(document: Json, pointer: Pointer, action: Action)
    requires pointer != [] && Lookup(document, pointer).Some?
    ensures var entry := Lookup(document, pointer).value;
            && (Edit(document, pointer, action).Panics? || Edit(document, pointer, action).Edited?)
            && (Edit(document, pointer, action).Panics? <==> action.Enable? && !entry.Object? && !entry.Null?)
    decreases |pointer|
  {
    if |pointer| == 1 {
      assert pointer[1..] == [];
    } else {
      EditOfPresentEntry(Get(document, pointer[0]).value, pointer[1..], action);
    }
  }
}
