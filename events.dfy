/**
 * Events of src/event.py: the event record and its id check, key matching,
 * the list of held keys that the keyboard callbacks maintain (InputManager),
 * and the per-component queue (EventManager).
 *
 * The keyboard listener thread is not modelled: its two callbacks are plain
 * methods that receive the key name the listener resolved.
 */
module Events {
  import opened Wrappers

  /** The smallest and largest event id the constructor accepts. */
  const EventMin := 0
  const EventMax := 1

  /** The two event classes: `Event` itself and its subclass `Keydown`. */
  datatype EventKind = PlainEvent | KeydownEvent

  /**
   * An event. The `data` dictionary holds arbitrary values in the source;
   * here its values are strings.
   */
  datatype Event = Event(kind: EventKind, id: int, name: string, data: map<string, string>)

  /** The constructor raises when the id is out of range. */
  datatype EventError = IdOutOfRange(id: int)

  /** Constructing an `Event` or `Keydown`: the id is checked, a missing `data` becomes `{}`. */
  function NewEvent(kind: EventKind, id: int, name: string, data: Option<map<string, string>>): (r: Result<Event, EventError>)
    ensures r.Ok? <==> EventMin <= id <= EventMax
    ensures r.Ok? ==> r.value.kind == kind && r.value.id == id && r.value.name == name
    ensures r.Ok? ==> r.value.data == (if data.Some? then data.value else map[])
    ensures r.Err? ==> r.error == IdOutOfRange(id)
  {
    if EventMin <= id <= EventMax then
      Ok(Event(kind, id, name, if data.Some? then data.value else map[]))
    else
      Err(IdOutOfRange(id))
  }

  /** `Keydown(1, name)`, the event the keyboard callbacks create and compare against. */
  function Keydown(name: string): (e: Event)
    ensures NewEvent(KeydownEvent, 1, name, None) == Ok(e)
  {
    Event(KeydownEvent, 1, name, map[])
  }

  /** The Kelvin sign U+212A, the one character besides 'K' that `str.lower` turns into an ASCII letter. */
  const KelvinSign: char := '\U{212A}'

  predicate IsUpperAscii(c: char) {
    'A' <= c <= 'Z'
  }

  predicate IsLowerAscii(c: char) {
    'a' <= c <= 'z'
  }

  /** Python's `str.lower` on one character: ASCII capitals and the Kelvin sign; every other character is kept. */
  function LowerChar(c: char): char {
    if IsUpperAscii(c) then (c as int + 32) as char else if c == KelvinSign then 'k' else c
  }

  /** Python's `str.upper` on one character: ASCII small letters; every other character is kept. */
  function UpperChar(c: char): char {
    if IsLowerAscii(c) then (c as int - 32) as char else c
  }

  /** `str.lower`, character by character. */
  function Lower(s: string): (r: string)
    ensures |r| == |s|
    ensures forall i :: 0 <= i < |r| ==> !IsUpperAscii(r[i]) && r[i] != KelvinSign
    ensures forall i :: 0 <= i < |s| && IsUpperAscii(s[i]) ==> IsLowerAscii(r[i]) && UpperChar(r[i]) == s[i]
    ensures forall i :: 0 <= i < |s| && !IsUpperAscii(s[i]) && s[i] != KelvinSign ==> r[i] == s[i]
  {
    seq(|s|, i requires 0 <= i < |s| => LowerChar(s[i]))
  }

  /** `str.upper`, character by character. */
  function Upper(s: string): (r: string)
    ensures |r| == |s|
    ensures forall i :: 0 <= i < |r| ==> !IsLowerAscii(r[i])
    ensures forall i :: 0 <= i < |s| && IsLowerAscii(s[i]) ==> IsUpperAscii(r[i]) && LowerChar(r[i]) == s[i]
    ensures forall i :: 0 <= i < |s| && !IsLowerAscii(s[i]) ==> r[i] == s[i]
  {
    seq(|s|, i requires 0 <= i < |s| => UpperChar(s[i]))
  }

  /** Lower-casing twice is lower-casing once, and likewise for upper-casing. */
  lemma CaseIdempotent(s: string)
    ensures Lower(Lower(s)) == Lower(s)
    ensures Upper(Upper(s)) == Upper(s)
  {
  }

  /** `match_key`: the key's name, lower-cased or upper-cased, equals the string. */
  predicate MatchKey(key: Event, toMatch: string) {
    Lower(key.name) == toMatch || Upper(key.name) == toMatch
  }

  /**
   * Matching a lower-case letter accepts exactly that letter in either case,
   * and for "k" also the Kelvin sign; nothing else.
   */
  lemma MatchKeyLetter(key: Event, c: char)
    requires IsLowerAscii(c)
    ensures MatchKey(key, [c]) <==> key.name == [c] || key.name == [UpperChar(c)] || (c == 'k' && key.name == [KelvinSign])
  {
    var n := key.name;
    if Lower(n) == [c] {
      assert |n| == 1 && LowerChar(n[0]) == c;
      assert n == [n[0]];
    }
    if n == [UpperChar(c)] {
      assert Lower(n) == [c];
    }
  }

  /** How often `e` occurs in `s`: Python's `list.count`. */
  function Count(s: seq<Event>, e: Event): nat {
    if s == [] then 0 else (if s[0] == e then 1 else 0) + Count(s[1..], e)
  }

  /** `s` without any occurrence of `e`, the others kept in order. */
  function RemoveAll(s: seq<Event>, e: Event): (r: seq<Event>)
    ensures forall x :: x in r <==> x in s && x != e
    ensures |r| <= |s|
  {
    if s == [] then [] else if s[0] == e then RemoveAll(s[1..], e) else [s[0]] + RemoveAll(s[1..], e)
  }

  /** Python's `list.remove`: drop the first occurrence of `e`. */
  function RemoveFirst(s: seq<Event>, e: Event): seq<Event> {
    if s == [] then [] else if s[0] == e then s[1..] else [s[0]] + RemoveFirst(s[1..], e)
  }

  /** No event occurs twice. */
  predicate NoDuplicates(s: seq<Event>) {
    forall i, j :: 0 <= i < j < |s| ==> s[i] != s[j]
  }

  lemma {:induction false} CountZero(s: seq<Event>, e: Event)
    ensures Count(s, e) == 0 <==> e !in s
  {
    if s != [] {
      CountZero(s[1..], e);
      assert s == [s[0]] + s[1..];
    }
  }

  /** Removing the first occurrence lowers the count by one and removes nothing else for good. */
  lemma {:induction false} RemoveFirstStep(s: seq<Event>, e: Event)
    requires Count(s, e) > 0
    ensures Count(RemoveFirst(s, e), e) == Count(s, e) - 1
    ensures RemoveAll(RemoveFirst(s, e), e) == RemoveAll(s, e)
  {
    if s[0] != e {
      RemoveFirstStep(s[1..], e);
      var t := RemoveFirst(s[1..], e);
      assert ([s[0]] + t)[0] == s[0] && ([s[0]] + t)[1..] == t;
    }
  }

  lemma {:induction false} RemoveAllAbsent(s: seq<Event>, e: Event)
    requires e !in s
    ensures RemoveAll(s, e) == s
  {
    if s != [] {
      assert e !in s[1..];
      RemoveAllAbsent(s[1..], e);
    }
  }

  /** Removing every `e` keeps the number of every other event. */
  lemma {:induction false} RemoveAllKeepsOthers(s: seq<Event>, e: Event, x: Event)
    requires x != e
    ensures Count(RemoveAll(s, e), x) == Count(s, x)
  {
    if s != [] {
      RemoveAllKeepsOthers(s[1..], e, x);
      if s[0] != e {
        var t := RemoveAll(s[1..], e);
        assert ([s[0]] + t)[0] == s[0] && ([s[0]] + t)[1..] == t;
      }
    }
  }

  lemma NoDuplicatesCons(x: Event, t: seq<Event>)
    ensures NoDuplicates([x] + t) <==> x !in t && NoDuplicates(t)
  {
    var s := [x] + t;
    if x !in t && NoDuplicates(t) {
      forall i, j | 0 <= i < j < |s| ensures s[i] != s[j] {
        if i == 0 { assert s[j] == t[j - 1]; } else { assert s[i] == t[i - 1] && s[j] == t[j - 1]; }
      }
    }
    if NoDuplicates(s) {
      forall k | 0 <= k < |t| ensures t[k] != x { assert s[0] == x && s[k + 1] == t[k]; }
      forall i, j | 0 <= i < j < |t| ensures t[i] != t[j] { assert s[i + 1] == t[i] && s[j + 1] == t[j]; }
    }
  }

  /** Removing every occurrence of a key keeps a duplicate-free list duplicate-free. */
  lemma {:induction false} RemoveAllKeepsNoDuplicates(s: seq<Event>, e: Event)
    requires NoDuplicates(s)
    ensures NoDuplicates(RemoveAll(s, e))
  {
    if s != [] {
      assert s == [s[0]] + s[1..];
      NoDuplicatesCons(s[0], s[1..]);
      RemoveAllKeepsNoDuplicates(s[1..], e);
      if s[0] != e {
        NoDuplicatesCons(s[0], RemoveAll(s[1..], e));
      }
    }
  }

  /** The held list after a press of `name`: `Keydown(1, name)` appended unless already held. */
  function Pressed(held: seq<Event>, name: string): seq<Event> {
    if Count(held, Keydown(name)) == 0 then held + [Keydown(name)] else held
  }

  /** A press never creates a duplicate, and afterwards the key is held. */
  lemma PressKeepsNoDuplicates(held: seq<Event>, name: string)
    requires NoDuplicates(held)
    ensures NoDuplicates(Pressed(held, name))
    ensures Keydown(name) in Pressed(held, name)
    ensures forall x :: x in held ==> x in Pressed(held, name)
  {
    CountZero(held, Keydown(name));
    var k := Keydown(name);
    if k !in held {
      var s := held + [k];
      forall i, j | 0 <= i < j < |s| ensures s[i] != s[j] {
        if j == |held| { assert s[i] == held[i]; } else { assert s[i] == held[i] && s[j] == held[j]; }
      }
    }
  }

  /** Every entry is a `Keydown(1, name)` with empty data, and no key is listed twice. */
  predicate HeldKeys(held: seq<Event>) {
    NoDuplicates(held) && forall e :: e in held ==> e == Keydown(e.name)
  }

  /**
   * The input side of an event manager: the keys currently held, kept up to
   * date by the press and release callbacks.
   */
  class InputManager {
    var events: seq<Event>

    ghost predicate Valid()
      reads this
    {
      HeldKeys(events)
    }

    /** A fresh manager holds no keys; starting the listener is not modelled. */
    constructor()
      ensures Valid() && events == []
    {
      events := [];
    }

    /** `on_press_callback`: add the key unless it is already held. */
    method OnPress(name: string)
      requires Valid()
      modifies this
      ensures Valid()
      ensures events == Pressed(old(events), name)
    {
      PressKeepsNoDuplicates(events, name);
      if Count(events, Keydown(name)) == 0 {
        events := events + [Keydown(name)];
      }
    }

    /** `on_release_callback`: remove the key as often as it occurs, one `list.remove` at a time. */
    method OnRelease(name: string)
      requires Valid()
      modifies this
      ensures Valid()
      ensures events == RemoveAll(old(events), Keydown(name))
    {
      var k := Keydown(name);
      var n := Count(events, k);
      var i := 0;
      while i < n
        invariant 0 <= i <= n
        invariant Count(events, k) == n - i
        invariant RemoveAll(events, k) == RemoveAll(old(events), k)
      {
        RemoveFirstStep(events, k);
        events := RemoveFirst(events, k);
        i := i + 1;
      }
      CountZero(events, k);
      RemoveAllAbsent(events, k);
      RemoveAllKeepsNoDuplicates(old(events), k);
    }

    /** `get_events`: a copy of the held keys; the list is not cleared. */
    method GetEvents() returns (r: seq<Event>)
      ensures r == events
    {
      r := events;
    }

    /** `empty_events`: clear the held keys (the sleep before it is not modelled). */
    method EmptyEvents()
      modifies this
      ensures Valid() && events == []
    {
      events := [];
    }
  }

  /** The event manager every component owns: its own input manager and a local queue. */
  class EventManager {
    const inputmanager: InputManager
    var events: seq<Event>

    constructor()
      ensures events == [] && fresh(inputmanager)
      ensures inputmanager.Valid() && inputmanager.events == []
    {
      inputmanager := new InputManager();
      events := [];
    }

    /** `get`: the held keys followed by the queued events; the queue is left empty. */
    method Get() returns (r: seq<Event>)
      modifies this
      ensures r == old(inputmanager.events) + old(events)
      ensures events == []
    {
      var e := events;
      events := [];
      var held := inputmanager.GetEvents();
      r := held + e;
    }

    /** `add_event`: append to the local queue. */
    method AddEvent(e: Event)
      modifies this
      ensures events == old(events) + [e]
    {
      events := events + [e];
    }
  }
}
