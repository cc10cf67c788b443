/**
 * Session persistence: one storage slot holding the serialized order session,
 * with a version tag and a two-hour time to live. JSON text is abstracted to
 * what `JSON.parse` makes of it; the clock reading `now` is a parameter.
 */
module Session {
  import opened Wrappers
  import opened Cart

  /** The `localStorage` key the session lives under. */
  const StorageKey: string := "pizza-order-session:v1"

  /** Two hours in milliseconds. */
  const TtlMs: int := 2 * 60 * 60 * 1000

  /**
   * A field value as `JSON.parse` produces it, as far as the loader looks at
   * it. An array's elements are taken to be line items (they are not checked).
   */
  datatype Json =
    | Undefined
    | Null
    | Bool(b: bool)
    | Number(n: real)
    | Str(s: string)
    | Array(items: seq<LineItem>)
    | Object

  /** The parsed text: an object with the five fields the loader reads, or anything else. */
  datatype Parsed =
    | NonObject
    | Record(version: Json, updatedAt: Json, mode: Json, lineItems: Json, notes: Json)

  /** What the storage slot holds, when it holds something. */
  datatype Stored =
    | EmptyText          // the empty string
    | Unparsable         // text on which `JSON.parse` throws
    | Text(parsed: Parsed)

  datatype OrderSession = OrderSession(version: int, updatedAt: real, mode: string, lineItems: seq<LineItem>, notes: string)

  /** What `loadOrderSession` decides: return null and keep the slot, return null and delete it, or restore. */
  datatype LoadOutcome = Keep | Evict | Restore(session: OrderSession)

  /** The record `saveOrderSession` writes, as `JSON.parse` reads it back. */
  function Encode(s: OrderSession): Parsed
  {
    Record(Number(s.version as real), Number(s.updatedAt), Str(s.mode), Array(s.lineItems), Str(s.notes))
  }

  /** Different sessions are written as different records. */
  lemma EncodeInjective(a: OrderSession, b: OrderSession)
    ensures Encode(a) == Encode(b) ==> a == b
  {
  }

  /** The session `saveOrderSession` builds at time `now`. */
  function Stamped(now: int, mode: string, lineItems: seq<LineItem>, notes: string): OrderSession
  {
    OrderSession(1, now as real, mode, lineItems, notes)
  }

  predicate Expired(updatedAt: real, now: int)
  {
    now as real - updatedAt > TtlMs as real
  }

  /** The checks of `loadOrderSession`, in the order the source makes them. */
  function Inspect(slot: Option<Stored>, now: int): (o: LoadOutcome)
    ensures o.Restore? ==> o.session.version == 1 && !Expired(o.session.updatedAt, now)
    ensures o.Evict? ==> slot.Some? && slot.value.Text? && slot.value.parsed.Record?
  {
    match slot
    case None => Keep
    case Some(EmptyText) => Keep
    case Some(Unparsable) => Keep
    case Some(Text(NonObject)) => Keep
    case Some(Text(Record(version, updatedAt, mode, lineItems, notes))) =>
      if version != Number(1.0) then Keep
      else if !updatedAt.Number? then Keep
      else if Expired(updatedAt.n, now) then Evict
      else if !lineItems.Array? then Keep
      else if !mode.Str? then Keep
      else if !notes.Str? then Keep
      else Restore(OrderSession(1, updatedAt.n, mode.s, lineItems.items, notes.s))
  }

  function SessionOf(o: LoadOutcome): Option<OrderSession>
  {
    if o.Restore? then Some(o.session) else None
  }

  /** Nothing stored, or the empty string: no session, and nothing to delete. */
  lemma LoadAbsentOrEmpty(now: int)
    ensures Inspect(None, now) == Keep
    ensures Inspect(Some(EmptyText), now) == Keep
    ensures Inspect(Some(Unparsable), now) == Keep
  {
  }

  /**
   * A wrong version or a non-numeric timestamp rejects the record without
   * deleting it, however old it is: these checks come before the expiry check.
   */
  lemma LoadBadVersionOrTimestampKeeps(p: Parsed, now: int)
    requires p.Record? && (p.version != Number(1.0) || !p.updatedAt.Number?)
    ensures Inspect(Some(Text(p)), now) == Keep
  {
  }

  /** A version-1 record older than the time to live is deleted, whatever its other fields hold. */
  lemma LoadExpiredEvicts(p: Parsed, now: int)
    requires p.Record? && p.version == Number(1.0) && p.updatedAt.Number?
    requires now as real - p.updatedAt.n > TtlMs as real
    ensures Inspect(Some(Text(p)), now) == Evict
  {
  }

  /** The comparison is strict: a record exactly two hours old is still restored. */
  lemma LoadAtTtlBoundary(s: OrderSession, now: int)
    requires s.version == 1 && now as real - s.updatedAt == TtlMs as real
    ensures Inspect(Some(Text(Encode(s))), now) == Restore(s)
  {
  }

  /** An unexpired record with a bad field is rejected and stays in storage. */
  lemma LoadMalformedKeeps(p: Parsed, now: int)
    requires p.Record? && p.version == Number(1.0) && p.updatedAt.Number?
    requires !Expired(p.updatedAt.n, now)
    requires !p.lineItems.Array? || !p.mode.Str? || !p.notes.Str?
    ensures Inspect(Some(Text(p)), now) == Keep
  {
  }

  /** The mode check accepts any string, not only "pickup" and "delivery". */
  lemma LoadAcceptsAnyMode(mode: string, t: int, now: int)
    requires now - t <= TtlMs
    ensures Inspect(Some(Text(Encode(Stamped(t, mode, [], "")))), now).Restore?
    ensures Inspect(Some(Text(Encode(Stamped(t, mode, [], "")))), now).session.mode == mode
  {
  }

  /**
   * What load restores is exactly a saved record, and every saved record that
   * is not expired is restored.
   */
  lemma {:induction false} LoadRestoresExactlySavedRecords(slot: Option<Stored>, now: int, s: OrderSession)
    ensures Inspect(slot, now) == Restore(s) <==>
      slot == Some(Text(Encode(s))) && s.version == 1 && !Expired(s.updatedAt, now)
  {
    if Inspect(slot, now) == Restore(s) {
      var p := slot.value.parsed;
      assert p.version == Number(1.0);
      assert p == Record(p.version, p.updatedAt, p.mode, p.lineItems, p.notes);
    }
  }

  /** Saving at `t` and loading at `t2` gives back exactly the saved session while `t2 - t` is within the time to live, and evicts it after. */
  lemma SaveThenLoad(t: int, t2: int, mode: string, lineItems: seq<LineItem>, notes: string)
    ensures t2 - t <= TtlMs ==>
      Inspect(Some(Text(Encode(Stamped(t, mode, lineItems, notes)))), t2) == Restore(Stamped(t, mode, lineItems, notes))
    ensures t2 - t > TtlMs ==>
      Inspect(Some(Text(Encode(Stamped(t, mode, lineItems, notes)))), t2) == Evict
  {
  }

  /** The browser's `localStorage`, reduced to the one slot under `StorageKey`. */
  class LocalStorage {
    var slot: Option<Stored>

    constructor (initial: Option<Stored>)
      ensures slot == initial
    {
      slot := initial;
    }

    /**
     * `loadOrderSession`. `failed` reports that storage threw (a read, or the
     * delete of an expired record); the source catches that and returns null.
     */
    method Load(now: int) returns (session: Option<OrderSession>, failed: bool)
      modifies this
      ensures failed ==> session == None && slot == old(slot)
      ensures !failed ==> session == SessionOf(Inspect(old(slot), now))
      ensures !failed ==> slot == if Inspect(old(slot), now).Evict? then None else old(slot)
    {
      var readFails: bool :| true;
      if readFails {
        return None, true;
      }
      var outcome := Inspect(slot, now);
      match outcome {
        case Keep =>
          session, failed := None, false;
        case Restore(s) =>
          session, failed := Some(s), false;
        case Evict =>
          var removeFails: bool :| true;
          if !removeFails {
            slot := None;
          }
          session, failed := None, removeFails;
      }
    }

    /** `saveOrderSession`: stamp version 1 and the time, and replace the stored record. */
    method Save(now: int, mode: string, lineItems: seq<LineItem>, notes: string) returns (failed: bool)
      modifies this
      ensures !failed ==> slot == Some(Text(Encode(Stamped(now, mode, lineItems, notes))))
      ensures failed ==> slot == old(slot)
    {
      failed :| true;
      if !failed {
        slot := Some(Text(Encode(Stamped(now, mode, lineItems, notes))));
      }
    }

    /** `clearOrderSession`: delete the record. */
    method Clear() returns (failed: bool)
      modifies this
      ensures !failed ==> slot == None
      ensures failed ==> slot == old(slot)
    {
      failed :| true;
      if !failed {
        slot := None;
      }
    }
  }
}
