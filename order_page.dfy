/**
 * The order page's component state and its event handlers: the cart, the
 * pickup/delivery mode, the notes, the checkout status, and the effect that
 * saves the session after every change once the stored session was restored.
 */
module OrderPage {
  import opened Wrappers
  import opened Catalog
  import Cart
  import opened Session

  datatype OrderStatus = Idle | Processing | Success

  /** The two modes the page's tabs set. */
  datatype OrderMode = Pickup | Delivery

  function ModeName(m: OrderMode): (s: string)
    ensures s == "pickup" || s == "delivery"
    ensures s == "pickup" <==> m == Pickup
  {
    match m
    case Pickup => "pickup"
    case Delivery => "delivery"
  }

  // ---------------------------------------------------------------------------
  // `notes.trim().length === 0`

  /** The ECMAScript WhiteSpace and LineTerminator code points, which `String.prototype.trim` removes. */
  predicate IsJsSpace(c: char)
  {
    // WhiteSpace: tab, vertical tab, form feed, space, no-break space, byte order mark
    c == '\U{0009}' || c == '\U{000B}' || c == '\U{000C}' || c == '\U{0020}' || c == '\U{00A0}' || c == '\U{FEFF}' ||
    // the other Space_Separator code points
    c == '\U{1680}' || ('\U{2000}' <= c <= '\U{200A}') || c == '\U{202F}' || c == '\U{205F}' || c == '\U{3000}' ||
    // LineTerminator: line feed, carriage return, line separator, paragraph separator
    c == '\U{000A}' || c == '\U{000D}' || c == '\U{2028}' || c == '\U{2029}'
  }

  function TrimStart(s: string): (r: string)
    ensures |r| <= |s|
  {
    if s != [] && IsJsSpace(s[0]) then TrimStart(s[1..]) else s
  }

  function TrimEnd(s: string): (r: string)
    ensures |r| <= |s|
  {
    if s != [] && IsJsSpace(s[|s| - 1]) then TrimEnd(s[..|s| - 1]) else s
  }

  /** `s.trim()`. */
  function Trim(s: string): string
  {
    TrimEnd(TrimStart(s))
  }

  /** Dropping the leading white space leaves a suffix, and only white space is dropped. */
  lemma {:induction false} TrimStartDropsLeadingSpace(s: string)
    ensures var r := TrimStart(s); |r| <= |s| && r == s[|s| - |r|..] && IsBlank(s[..|s| - |r|])
  {
    if s != [] && IsJsSpace(s[0]) {
      TrimStartDropsLeadingSpace(s[1..]);
      var r := TrimStart(s[1..]);
      var n := |s| - |r|;
      assert s[1..][|s[1..]| - |r|..] == s[n..];
      forall k | 0 <= k < n ensures IsJsSpace(s[..n][k]) {
        if k > 0 {
          assert s[..n][k] == s[1..][..n - 1][k - 1];
        }
      }
    }
  }

  /**
   * Dropping the trailing white space leaves a prefix that does not end with
   * white space, and only white space is dropped.
   */
  lemma {:induction false} TrimEndDropsTrailingSpace(s: string)
    ensures var r := TrimEnd(s); |r| <= |s| && r == s[..|r|] && IsBlank(s[|r|..])
    ensures var r := TrimEnd(s); r != [] ==> !IsJsSpace(r[|r| - 1])
  {
    if s != [] && IsJsSpace(s[|s| - 1]) {
      var s' := s[..|s| - 1];
      TrimEndDropsTrailingSpace(s');
      var r := TrimEnd(s');
      assert s'[..|r|] == s[..|r|];
      var tail := s[|r|..];
      forall k | 0 <= k < |tail| ensures IsJsSpace(tail[k]) {
        if k < |tail| - 1 {
          assert tail[k] == s'[|r|..][k];
        }
      }
    }
  }

  /**
   * `trim()` keeps the contiguous piece of `s` that follows its leading
   * white space, and drops only white space around it.
   */
  lemma TrimKeepsMiddle(s: string)
    ensures var r, i := Trim(s), |s| - |TrimStart(s)|;
      i + |r| <= |s| && r == s[i..i + |r|] && IsBlank(s[..i]) && IsBlank(s[i + |r|..])
  {
    var t := TrimStart(s);
    TrimStartDropsLeadingSpace(s);
    TrimEndDropsTrailingSpace(t);
    var i, r := |s| - |t|, TrimEnd(t);
    assert s[i..i + |r|] == t[..|r|];
    assert s[i + |r|..] == t[|r|..];
  }

  /** What `trim()` keeps neither starts nor ends with white space. */
  lemma TrimEndsNonSpace(s: string)
    ensures var r := Trim(s); r != [] ==> !IsJsSpace(r[0]) && !IsJsSpace(r[|r| - 1])
  {
    var t := TrimStart(s);
    TrimStartEmptyIffBlank(s);
    TrimEndDropsTrailingSpace(t);
    var r := TrimEnd(t);
    if r != [] {
      assert r[0] == t[0];
    }
  }

  ghost predicate IsBlank(s: string)
  {
    forall i :: 0 <= i < |s| ==> IsJsSpace(s[i])
  }

  lemma {:induction false} TrimStartEmptyIffBlank(s: string)
    ensures TrimStart(s) == [] <==> IsBlank(s)
    ensures TrimStart(s) != [] ==> !IsJsSpace(TrimStart(s)[0])
  {
    if s != [] && IsJsSpace(s[0]) {
      TrimStartEmptyIffBlank(s[1..]);
      assert IsBlank(s) <==> IsBlank(s[1..]) by {
        if IsBlank(s[1..]) {
          forall i | 0 <= i < |s| ensures IsJsSpace(s[i]) {
            if i > 0 { assert s[i] == s[1..][i - 1]; }
          }
        }
      }
    }
  }

  lemma {:induction false} TrimEndKeepsNonSpaceHead(s: string)
    requires s != [] && !IsJsSpace(s[0])
    ensures TrimEnd(s) != []
  {
    if IsJsSpace(s[|s| - 1]) {
      TrimEndKeepsNonSpaceHead(s[..|s| - 1]);
    }
  }

  /** `trim()` leaves nothing exactly when every character is white space. */
  lemma TrimEmptyIffBlank(s: string)
    ensures Trim(s) == [] <==> IsBlank(s)
  {
    TrimStartEmptyIffBlank(s);
    if TrimStart(s) != [] {
      TrimEndKeepsNonSpaceHead(TrimStart(s));
    }
  }

  /** The notes the save effect persists: blank notes on an empty cart are saved as "". */
  function NotesToSave(lineItems: seq<Cart.LineItem>, notes: string): (r: string)
    ensures |lineItems| == 0 && IsBlank(notes) ==> r == ""
    ensures !(|lineItems| == 0 && IsBlank(notes)) ==> r == notes
  {
    TrimEmptyIffBlank(notes);
    if |lineItems| == 0 && |Trim(notes)| == 0 then "" else notes
  }

  /** `OrderPage`'s state; `storage` is the browser's local storage it persists to. */
  class OrderPage {
    var mode: string
    var lineItems: seq<Cart.LineItem>
    var notes: string
    var orderStatus: OrderStatus
    var restored: bool
    /** Completions scheduled by `HandleCheckout` whose timer has not fired yet. */
    var pendingCompletions: nat
    const storage: LocalStorage

    constructor (storage: LocalStorage)
      ensures this.storage == storage
      ensures mode == "pickup" && lineItems == [] && notes == ""
      ensures orderStatus == Idle && !restored && pendingCompletions == 0
    {
      this.storage := storage;
      mode := "pickup";
      lineItems := [];
      notes := "";
      orderStatus := Idle;
      restored := false;
      pendingCompletions := 0;
    }

    /** The record the save effect writes for the current state at time `now`. */
    ghost function Snapshot(now: int): Stored
      reads this
    {
      Text(Encode(Stamped(now, mode, lineItems, NotesToSave(lineItems, notes))))
    }

    /**
     * The save effect, run after a change to the mode, the cart or the notes:
     * nothing before the stored session was restored, otherwise a save.
     * `saveFailed` reports a storage write that threw, which the source
     * swallows.
     */
    method SaveEffect(now: int) returns (saveFailed: bool)
      modifies storage
      ensures restored && !saveFailed ==> storage.slot == Some(Snapshot(now))
      ensures !restored || saveFailed ==> storage.slot == old(storage.slot)
    {
      if !restored {
        return false;
      }
      if |lineItems| == 0 && |Trim(notes)| == 0 {
        saveFailed := storage.Save(now, mode, lineItems, "");
        return;
      }
      saveFailed := storage.Save(now, mode, lineItems, notes);
    }

    /**
     * The mount effect: load the stored session and adopt its mode, cart and
     * notes, then arm the save effect, which runs at once because `restored`
     * changed and so writes the (possibly restored) state again. `readFailed`
     * reports that reading the slot threw, which the source swallows;
     * otherwise a restorable session is always adopted.
     */
    method Restore(now: int) returns (readFailed: bool, saveFailed: bool)
      requires !restored
      modifies this, storage
      ensures restored
      ensures orderStatus == old(orderStatus) && pendingCompletions == old(pendingCompletions)
      ensures var o := Inspect(old(storage.slot), now);
        (mode, lineItems, notes) == (old(mode), old(lineItems), old(notes)) ||
        (o.Restore? && (mode, lineItems, notes) == (o.session.mode, o.session.lineItems, o.session.notes))
      ensures !Inspect(old(storage.slot), now).Restore? ==> (mode, lineItems, notes) == (old(mode), old(lineItems), old(notes))
      ensures !readFailed ==> var o := Inspect(old(storage.slot), now);
        o.Restore? ==> (mode, lineItems, notes) == (o.session.mode, o.session.lineItems, o.session.notes)
      ensures !saveFailed ==> storage.slot == Some(Snapshot(now))
      ensures saveFailed ==> storage.slot == old(storage.slot) || storage.slot == None
    {
      var session;
      session, readFailed := storage.Load(now);
      if session.Some? {
        mode := session.value.mode;
        lineItems := session.value.lineItems;
        notes := session.value.notes;
      }
      restored := true;
      saveFailed := SaveEffect(now);
    }

    /** `setMode`; React skips the effect when the mode does not change. */
    method SetMode(m: OrderMode, now: int) returns (saveFailed: bool)
      modifies this, storage
      ensures mode == ModeName(m)
      ensures lineItems == old(lineItems) && notes == old(notes) && restored == old(restored)
      ensures orderStatus == old(orderStatus) && pendingCompletions == old(pendingCompletions)
      ensures old(mode) == ModeName(m) ==> storage.slot == old(storage.slot) && !saveFailed
      ensures restored && old(mode) != ModeName(m) && !saveFailed ==> storage.slot == Some(Snapshot(now))
      ensures !restored || saveFailed ==> storage.slot == old(storage.slot)
    {
      saveFailed := false;
      if mode != ModeName(m) {
        mode := ModeName(m);
        saveFailed := SaveEffect(now);
      }
    }

    /** `setNotes`; React skips the effect when the text does not change. */
    method SetNotes(text: string, now: int) returns (saveFailed: bool)
      modifies this, storage
      ensures notes == text
      ensures mode == old(mode) && lineItems == old(lineItems) && restored == old(restored)
      ensures orderStatus == old(orderStatus) && pendingCompletions == old(pendingCompletions)
      ensures old(notes) == text ==> storage.slot == old(storage.slot) && !saveFailed
      ensures restored && old(notes) != text && !saveFailed ==> storage.slot == Some(Snapshot(now))
      ensures !restored || saveFailed ==> storage.slot == old(storage.slot)
    {
      saveFailed := false;
      if notes != text {
        notes := text;
        saveFailed := SaveEffect(now);
      }
    }

    /** `upsertPizza`, then the save effect. */
    method UpsertPizza(base: MenuItem, c: PizzaCustomization, now: int) returns (saveFailed: bool)
      modifies this, storage
      ensures lineItems == Cart.UpsertPizza(old(lineItems), base, c)
      ensures Cart.TotalCount(lineItems) == Cart.TotalCount(old(lineItems)) + 1
      ensures Cart.CartInvariant(old(lineItems)) ==> Cart.CartInvariant(lineItems)
      ensures mode == old(mode) && notes == old(notes) && restored == old(restored)
      ensures orderStatus == old(orderStatus) && pendingCompletions == old(pendingCompletions)
      ensures restored && !saveFailed ==> storage.slot == Some(Snapshot(now))
      ensures !restored || saveFailed ==> storage.slot == old(storage.slot)
    {
      Cart.UpsertPizzaCount(lineItems, base, c);
      if Cart.CartInvariant(lineItems) {
        Cart.UpsertPizzaPreservesInvariant(lineItems, base, c);
      }
      lineItems := Cart.UpsertPizza(lineItems, base, c);
      saveFailed := SaveEffect(now);
    }

    /** `addOther`, then the save effect. */
    method AddOther(item: MenuItem, now: int) returns (saveFailed: bool)
      modifies this, storage
      ensures lineItems == Cart.AddOther(old(lineItems), item)
      ensures Cart.TotalCount(lineItems) == Cart.TotalCount(old(lineItems)) + 1
      ensures Cart.CartInvariant(old(lineItems)) ==> Cart.CartInvariant(lineItems)
      ensures mode == old(mode) && notes == old(notes) && restored == old(restored)
      ensures orderStatus == old(orderStatus) && pendingCompletions == old(pendingCompletions)
      ensures restored && !saveFailed ==> storage.slot == Some(Snapshot(now))
      ensures !restored || saveFailed ==> storage.slot == old(storage.slot)
    {
      Cart.AddOtherCount(lineItems, item);
      if Cart.CartInvariant(lineItems) {
        Cart.AddOtherPreservesInvariant(lineItems, item);
      }
      lineItems := Cart.AddOther(lineItems, item);
      saveFailed := SaveEffect(now);
    }

    /** `decLine`, then the save effect (the new array always fires it). */
    method DecLine(id: string, now: int) returns (saveFailed: bool)
      modifies this, storage
      ensures lineItems == Cart.DecLine(old(lineItems), id)
      ensures Cart.AllPositive(lineItems)
      ensures Cart.CartInvariant(old(lineItems)) ==> Cart.CartInvariant(lineItems)
      ensures mode == old(mode) && notes == old(notes) && restored == old(restored)
      ensures orderStatus == old(orderStatus) && pendingCompletions == old(pendingCompletions)
      ensures restored && !saveFailed ==> storage.slot == Some(Snapshot(now))
      ensures !restored || saveFailed ==> storage.slot == old(storage.slot)
    {
      if Cart.CartInvariant(lineItems) {
        Cart.DecLinePreservesInvariant(lineItems, id);
      }
      lineItems := Cart.DecLine(lineItems, id);
      saveFailed := SaveEffect(now);
    }

    /** `incLine`, then the save effect (the new array always fires it). */
    method IncLine(id: string, now: int) returns (saveFailed: bool)
      modifies this, storage
      ensures lineItems == Cart.IncLine(old(lineItems), id)
      ensures Cart.TotalCount(lineItems) == Cart.TotalCount(old(lineItems)) + Cart.CountId(old(lineItems), id)
      ensures Cart.CartInvariant(old(lineItems)) ==> Cart.CartInvariant(lineItems)
      ensures mode == old(mode) && notes == old(notes) && restored == old(restored)
      ensures orderStatus == old(orderStatus) && pendingCompletions == old(pendingCompletions)
      ensures restored && !saveFailed ==> storage.slot == Some(Snapshot(now))
      ensures !restored || saveFailed ==> storage.slot == old(storage.slot)
    {
      Cart.IncLineCount(lineItems, id);
      if Cart.CartInvariant(lineItems) {
        Cart.IncLinePreservesInvariant(lineItems, id);
      }
      lineItems := Cart.IncLine(lineItems, id);
      saveFailed := SaveEffect(now);
    }

    /**
     * `clearCart`: empty the cart and the notes and delete the stored session.
     * The change then fires the save effect, which stores an empty session again.
     */
    method ClearCart(now: int) returns (clearFailed: bool, saveFailed: bool)
      modifies this, storage
      ensures lineItems == [] && notes == ""
      ensures mode == old(mode) && restored == old(restored)
      ensures orderStatus == old(orderStatus) && pendingCompletions == old(pendingCompletions)
      ensures restored && !saveFailed ==> storage.slot == Some(Text(Encode(Stamped(now, mode, [], ""))))
      ensures (!restored || saveFailed) && !clearFailed ==> storage.slot == None
      ensures (!restored || saveFailed) && clearFailed ==> storage.slot == old(storage.slot)
    {
      lineItems := [];
      notes := "";
      clearFailed := storage.Clear();
      TrimEmptyIffBlank("");
      saveFailed := SaveEffect(now);
    }

    /** `handleCheckout`: show "processing" and schedule the completion. */
    method HandleCheckout()
      modifies this
      ensures orderStatus == Processing && pendingCompletions == old(pendingCompletions) + 1
      ensures mode == old(mode) && lineItems == old(lineItems) && notes == old(notes) && restored == old(restored)
    {
      orderStatus := Processing;
      pendingCompletions := pendingCompletions + 1;
    }

    /** The checkout timer fires: the order is placed and the cart cleared. */
    method CompleteCheckout(now: int) returns (clearFailed: bool, saveFailed: bool)
      requires pendingCompletions > 0
      modifies this, storage
      ensures orderStatus == Success && pendingCompletions == old(pendingCompletions) - 1
      ensures lineItems == [] && notes == "" && mode == old(mode) && restored == old(restored)
      ensures restored && !saveFailed ==> storage.slot == Some(Text(Encode(Stamped(now, mode, [], ""))))
      ensures (!restored || saveFailed) && !clearFailed ==> storage.slot == None
      ensures (!restored || saveFailed) && clearFailed ==> storage.slot == old(storage.slot)
    {
      orderStatus := Success;
      pendingCompletions := pendingCompletions - 1;
      clearFailed, saveFailed := ClearCart(now);
    }
  }
}
