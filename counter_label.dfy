/**
 * The animated counter label: the text is split into per-character entries
 * with ids drawn from a counter that only grows; when the value changes the
 * old entries animate out while new ones animate in, and the outgoing row
 * is dropped once its last character has finished.
 */
module CounterLabel {
  import opened Wrappers
  import opened Decimal
  import opened CalendarTypes

  const CharDelay: nat := 18
  const CharDuration: nat := 220
  const NoBreakSpace: char := '\U{00A0}'

  /**
   * One character entry. Its React key is `${serial}-${index}`: `serial` is
   * the counter value the entry took and `index` its position in the text.
   */
  datatype CounterChar = CounterChar(serial: nat, index: nat, raw: char, ch: char) {
    function Id(): string {
      Show(serial) + "-" + Show(index)
    }
  }

  /** What is rendered for a raw character: a space becomes a no-break space. */
  function Rendered(raw: char): (c: char)
    ensures c != ' '
    ensures c == NoBreakSpace <==> raw == ' ' || raw == NoBreakSpace
    ensures raw != ' ' ==> c == raw
  {
    if raw == ' ' then NoBreakSpace else raw
  }

  /** The entries `makeEntries(text)` builds when the counter starts at `start`. */
  function Entries(text: string, start: nat): (es: seq<CounterChar>)
    ensures |es| == |text|
  {
    seq(|text|, i requires 0 <= i < |text| => CounterChar(start + i, i, text[i], Rendered(text[i])))
  }

  /** `entries.map(item => item.raw).join('')`. */
  function Raws(es: seq<CounterChar>): (s: string)
    ensures |s| == |es|
  {
    if es == [] then [] else Raws(es[..|es| - 1]) + [es[|es| - 1].raw]
  }

  /** Joining the raw characters of fresh entries gives the text back. */
  lemma {:induction false} RawsOfEntries(text: string, start: nat)
    ensures Raws(Entries(text, start)) == text
    decreases |text|
  {
    if text != [] {
      var n := |text| - 1;
      assert Entries(text, start)[..n] == Entries(text[..n], start);
      RawsOfEntries(text[..n], start);
    }
  }

  /** In `d1 + "-" + r1 == d2 + "-" + r2` with digit strings d1, d2, the dash of the left cannot come first. */
  lemma DashNotEarlier(d1: string, r1: string, d2: string, r2: string)
    requires AllDigits(d1) && AllDigits(d2)
    requires d1 + "-" + r1 == d2 + "-" + r2
    ensures |d1| >= |d2|
  {
    if |d1| < |d2| {
      DashJoin(d1, r1);
      DashJoin(d2, r2);
      assert false;
    }
  }

  /** Where the parts of `d + "-" + r` sit. */
  lemma DashJoin(d: string, r: string)
    ensures (d + "-" + r)[|d|] == '-'
    ensures forall k :: 0 <= k < |d| ==> (d + "-" + r)[k] == d[k]
  {
  }

  /** ... so both numerals and both tails coincide. */
  lemma SplitAtDash(d1: string, r1: string, d2: string, r2: string)
    requires AllDigits(d1) && AllDigits(d2)
    requires d1 + "-" + r1 == d2 + "-" + r2
    ensures d1 == d2 && r1 == r2
  {
    DashNotEarlier(d1, r1, d2, r2);
    DashNotEarlier(d2, r2, d1, r1);
    var s := d1 + "-" + r1;
    assert d1 == s[..|d1|] && d2 == s[..|d2|];
    assert r1 == s[|d1| + 1..] && r2 == s[|d2| + 1..];
  }

  /** Two entry ids are equal only when they come from the same serial and index. */
  lemma EntryIdInjective(a: CounterChar, b: CounterChar)
    requires a.Id() == b.Id()
    ensures a.serial == b.serial && a.index == b.index
  {
    SplitAtDash(Show(a.serial), Show(a.index), Show(b.serial), Show(b.index));
    ShowInjective(a.serial, b.serial);
    ShowInjective(a.index, b.index);
  }

  /** The entries of one text carry pairwise distinct ids. */
  lemma EntriesHaveDistinctIds(text: string, start: nat, i: nat, j: nat)
    requires i < j < |text|
    ensures Entries(text, start)[i].Id() != Entries(text, start)[j].Id()
  {
    var es := Entries(text, start);
    if es[i].Id() == es[j].Id() {
      EntryIdInjective(es[i], es[j]);
    }
  }

  /** All serials of `es` lie in [lo, hi). */
  ghost predicate SerialsWithin(es: seq<CounterChar>, lo: nat, hi: nat) {
    forall e :: e in es ==> lo <= e.serial < hi
  }

  /** Entries whose serials lie in disjoint ranges never share an id. */
  lemma DisjointSerialsDistinctIds(older: seq<CounterChar>, newer: seq<CounterChar>)
    requires forall o, e :: o in older && e in newer ==> o.serial < e.serial
    ensures forall o, e :: o in older && e in newer ==> o.Id() != e.Id()
  {
    forall o, e | o in older && e in newer
      ensures o.Id() != e.Id()
    {
      if o.Id() == e.Id() {
        EntryIdInjective(o, e);
      }
    }
  }

  /** How long the outgoing row stays: the last character's delay and duration, plus 60 ms. */
  function ClearDelay(count: nat): (ms: nat)
    ensures count > 0 ==> ms == CharDelay * (count - 1) + CharDuration + 60
    ensures count == 0 ==> ms == CharDuration + 60
  {
    CharDuration + CharDelay * (if count - 1 > 0 then count - 1 else 0) + 60
  }

  /** Every outgoing character has finished animating 60 ms before the row is cleared. */
  lemma ClearAfterLastCharacter(count: nat, index: nat)
    requires index < count
    ensures CharDelay * index + CharDuration + 60 <= ClearDelay(count)
  {
  }

  /** `incomingMultiplier`: +1 slides in from below for "up", -1 for "down". */
  function IncomingMultiplier(d: Direction): (m: int)
    ensures m == 1 || m == -1
    ensures m == 1 <==> d == Up
  {
    if d == Up then 1 else -1
  }

  function OutgoingMultiplier(d: Direction): (m: int)
    ensures m == -IncomingMultiplier(d)
  {
    if d == Up then -1 else 1
  }

  /** The label's state: the id counter ref and the two state cells. */
  class AnimatedCounterLabel {
    var nextId: nat
    var currentChars: seq<CounterChar>
    var outgoingChars: Option<seq<CounterChar>>

    /**
     * Every id handed out so far used a serial below the counter, and the
     * outgoing entries are older than the current ones.
     */
    ghost predicate Valid()
      reads this
    {
      && SerialsWithin(currentChars, 0, nextId)
      && (outgoingChars.Some? ==> SerialsWithin(outgoingChars.value, 0, nextId))
      && (outgoingChars.Some? ==> forall o, e :: o in outgoingChars.value && e in currentChars ==> o.serial < e.serial)
    }

    /** Mounting: the counter starts at 0 and the initial value is split. */
    constructor (value: string)
      ensures Valid()
      ensures currentChars == Entries(value, 0) && outgoingChars == None && nextId == |value|
      ensures Raws(currentChars) == value
    {
      nextId := 0;
      currentChars := [];
      outgoingChars := None;
      new;
      currentChars := MakeEntries(value);
      RawsOfEntries(value, 0);
    }

    /** `makeEntries`: one entry per character, each taking the next counter value. */
    method MakeEntries(text: string) returns (es: seq<CounterChar>)
      modifies this`nextId
      ensures nextId == old(nextId) + |text|
      ensures es == Entries(text, old(nextId))
    {
      es := [];
      var i := 0;
      while i < |text|
        invariant 0 <= i <= |text|
        invariant nextId == old(nextId) + i
        invariant es == Entries(text[..i], old(nextId))
      {
        es := es + [CounterChar(nextId, i, text[i], Rendered(text[i]))];
        nextId := nextId + 1;
        i := i + 1;
      }
      assert text[..i] == text;
    }

    /**
     * The value effect: when the shown text differs from `value` the current
     * entries move to the outgoing row and `value` is split afresh; otherwise
     * nothing changes.
     */
    method OnValue(value: string)
      requires Valid()
      modifies this
      ensures Valid()
      ensures Raws(old(currentChars)) == value ==>
        currentChars == old(currentChars) && outgoingChars == old(outgoingChars) && nextId == old(nextId)
      ensures Raws(old(currentChars)) != value ==>
        && outgoingChars == Some(old(currentChars))
        && currentChars == Entries(value, old(nextId))
        && nextId == old(nextId) + |value|
      ensures Raws(currentChars) == value
      ensures outgoingChars.Some? ==>
        forall o, e :: o in outgoingChars.value && e in currentChars ==> o.Id() != e.Id()
    {
      if Raws(currentChars) == value {
        if outgoingChars.Some? {
          DisjointSerialsDistinctIds(outgoingChars.value, currentChars);
        }
        return;
      }
      var previous := currentChars;
      var entries := MakeEntries(value);
      outgoingChars := Some(previous);
      currentChars := entries;
      RawsOfEntries(value, old(nextId));
      DisjointSerialsDistinctIds(previous, entries);
    }

    /** The outgoing timer fired: `setOutgoingChars(null)`. */
    method ClearOutgoing()
      requires Valid()
      modifies this`outgoingChars
      ensures Valid() && outgoingChars == None
    {
      outgoingChars := None;
    }

    /** The outgoing-clear timer the effect schedules, if any: none for a null or empty row. */
    function OutgoingTimer(): (delay: Option<nat>)
      reads this
      ensures outgoingChars.None? || outgoingChars.value == [] <==> delay.None?
      ensures delay.Some? ==> delay.value == ClearDelay(|outgoingChars.value|) >= CharDuration + 60
    {
      if outgoingChars.None? || outgoingChars.value == [] then None
      else Some(ClearDelay(|outgoingChars.value|))
    }
  }
}
