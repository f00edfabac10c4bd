/**
 * The toast stack of src/components/structures/toast-stack.ts: a list of
 * messages on screen and the id the next message gets. An 'add-toast' event
 * appends a message; ten seconds later a timer removes every message with
 * that id. The timer is not modelled: its firing is an explicit call.
 */
module Toasts {
  import opened Wrappers

  datatype ToastMessage = ToastMessage(id: nat, message: string)

  /**
   * The `detail` of an 'add-toast' event: a string, or the object
   * `{intent, title, message}` that the pages dispatch.
   */
  datatype EventDetail =
    | TextDetail(text: string)
    | ObjectDetail(intent: string, title: string, message: Option<string>)

  /** How a template literal renders a detail: a plain object becomes "[object Object]". */
  function RenderDetail(detail: EventDetail): string {
    match detail
    case TextDetail(text) => text
    case ObjectDetail(_, _, _) => "[object Object]"
  }

  function DigitChar(d: nat): (c: char)
    requires d < 10
    ensures '0' <= c <= '9'
  {
    "0123456789"[d]
  }

  function DigitValue(c: char): nat
    requires '0' <= c <= '9'
  {
    c as int - '0' as int
  }

  /** Decimal text of a number, as a template literal renders it. */
  function NatToString(n: nat): (r: string)
    ensures |r| >= 1 && (|r| > 1 ==> r[0] != '0')
    ensures forall i :: 0 <= i < |r| ==> '0' <= r[i] <= '9'
  {
    if n < 10 then [DigitChar(n)] else NatToString(n / 10) + [DigitChar(n % 10)]
  }

  /** The number a string of decimal digits denotes. */
  function DecimalValue(s: string): nat
    requires forall i :: 0 <= i < |s| ==> '0' <= s[i] <= '9'
  {
    if s == [] then 0 else DecimalValue(s[..|s| - 1]) * 10 + DigitValue(s[|s| - 1])
  }

  /** The decimal text of a number reads back as that number. */
  lemma {:induction false} NatToStringRoundTrip(n: nat)
    ensures DecimalValue(NatToString(n)) == n
  {
    if n >= 10 {
      var s := NatToString(n);
      assert s[..|s| - 1] == NatToString(n / 10);
      NatToStringRoundTrip(n / 10);
    }
  }

  /** Distinct ids render as distinct texts. */
  lemma NatToStringInjective(a: nat, b: nat)
    requires NatToString(a) == NatToString(b)
    ensures a == b
  {
    NatToStringRoundTrip(a);
    NatToStringRoundTrip(b);
  }

  /** `messages.filter((msg) => msg.id !== id)`. */
  function WithoutId(messages: seq<ToastMessage>, id: nat): (r: seq<ToastMessage>)
    ensures |r| <= |messages|
    ensures forall m :: m in r <==> m in messages && m.id != id
  {
    if messages == [] then []
    else if messages[0].id == id then WithoutId(messages[1..], id)
    else [messages[0]] + WithoutId(messages[1..], id)
  }

  /** Filtering a concatenation filters each part and keeps their order. */
  lemma {:induction false} WithoutIdConcat(a: seq<ToastMessage>, b: seq<ToastMessage>, id: nat)
    ensures WithoutId(a + b, id) == WithoutId(a, id) + WithoutId(b, id)
  {
    if a != [] {
      assert (a + b)[1..] == a[1..] + b;
      WithoutIdConcat(a[1..], b, id);
    } else {
      assert a + b == b;
    }
  }

  /** Removing an id no message carries changes nothing. */
  lemma {:induction false} WithoutAbsentId(messages: seq<ToastMessage>, id: nat)
    requires forall i :: 0 <= i < |messages| ==> messages[i].id != id
    ensures WithoutId(messages, id) == messages
  {
    if messages != [] {
      WithoutAbsentId(messages[1..], id);
    }
  }

  /** Removing the same id twice is removing it once. */
  lemma RemoveIdempotent(messages: seq<ToastMessage>, id: nat)
    ensures WithoutId(WithoutId(messages, id), id) == WithoutId(messages, id)
  {
    var r := WithoutId(messages, id);
    forall i | 0 <= i < |r| ensures r[i].id != id {
      assert r[i] in r;
    }
    WithoutAbsentId(r, id);
  }

  /** Ids strictly increase along the list and stay below the next id to hand out. */
  ghost predicate IdsBelow(messages: seq<ToastMessage>, next: nat) {
    && (forall i, j :: 0 <= i < j < |messages| ==> messages[i].id < messages[j].id)
    && (forall i :: 0 <= i < |messages| ==> messages[i].id < next)
  }

  /** Filtering keeps ids increasing and below the next id. */
  lemma {:induction false} WithoutIdKeepsIds(messages: seq<ToastMessage>, id: nat, next: nat)
    requires IdsBelow(messages, next)
    ensures IdsBelow(WithoutId(messages, id), next)
  {
    if messages != [] {
      var head, tail := messages[0], messages[1..];
      SplitHead(messages, next);
      WithoutIdKeepsIds(tail, id, next);
      if head.id != id {
        var rest := WithoutId(tail, id);
        forall i | 0 <= i < |rest| ensures head.id < rest[i].id {
          assert rest[i] in rest;
        }
        JoinHead(head, rest, next);
      }
    }
  }

  /** The tail of an increasing list is increasing, and above its head. */
  lemma SplitHead(messages: seq<ToastMessage>, next: nat)
    requires messages != [] && IdsBelow(messages, next)
    ensures IdsBelow(messages[1..], next) && messages[0].id < next
    ensures forall m :: m in messages[1..] ==> messages[0].id < m.id
  {
    var tail := messages[1..];
    forall i, j | 0 <= i < j < |tail| ensures tail[i].id < tail[j].id {
      assert tail[i] == messages[i + 1] && tail[j] == messages[j + 1];
    }
  }

  /** A head below every id of an increasing list keeps it increasing. */
  lemma JoinHead(head: ToastMessage, rest: seq<ToastMessage>, next: nat)
    requires IdsBelow(rest, next) && head.id < next
    requires forall i :: 0 <= i < |rest| ==> head.id < rest[i].id
    ensures IdsBelow([head] + rest, next)
  {
    var r := [head] + rest;
    forall i, j | 0 <= i < j < |r| ensures r[i].id < r[j].id {
      assert r[j] == rest[j - 1];
      if i > 0 {
        assert r[i] == rest[i - 1];
      }
    }
  }

  /**
   * An object detail, which is what every page dispatches, shows as the id
   * followed by " [object Object]": two toasts with different titles and
   * messages read the same apart from their ids.
   */
  lemma ObjectDetailText(id: nat, a: EventDetail, b: EventDetail)
    requires a.ObjectDetail? && b.ObjectDetail?
    ensures NatToString(id) + " " + RenderDetail(a) == NatToString(id) + " " + RenderDetail(b)
    ensures NatToString(id) + " " + RenderDetail(a) == NatToString(id) + " [object Object]"
  {
  }

  class ToastStack {
    /** `_messages`. */
    var messages: seq<ToastMessage>
    /** `_id`: the id of the next message. */
    var nextId: nat

    ghost predicate Valid()
      reads this
    {
      IdsBelow(messages, nextId)
    }

    /** A new stack: no messages, and the counter starts at their number, 0. */
    constructor ()
      ensures Valid() && messages == [] && nextId == 0
    {
      var initial: seq<ToastMessage> := [];
      messages := initial;
      nextId := |initial|;
    }

    /**
     * `_addToastEvent`: appends a message with the current id, whose text is
     * that id, a space and the rendered event detail, then advances the counter.
     */
    method AddToastEvent(detail: EventDetail) returns (item: ToastMessage)
      requires Valid()
      modifies this
      ensures Valid()
      ensures item.id == old(nextId) && nextId == old(nextId) + 1
      ensures item.message == NatToString(item.id) + " " + RenderDetail(detail)
      ensures messages == old(messages) + [item]
    {
      item := ToastMessage(nextId, NatToString(nextId) + " " + RenderDetail(detail));
      messages := messages + [item];
      nextId := nextId + 1;
    }

    /** The `_removeMsgTimeout` timer firing for `item`: every message with its id goes. */
    method RemoveMsgTimeout(item: ToastMessage)
      requires Valid()
      modifies this`messages
      ensures Valid()
      ensures messages == WithoutId(old(messages), item.id)
    {
      WithoutIdKeepsIds(messages, item.id, nextId);
      messages := WithoutId(messages, item.id);
    }
  }

  /**
   * After an add, the new message is the only one with its id, so its timer
   * removes exactly that message and leaves the others in order.
   */
  lemma AddThenRemove(messages: seq<ToastMessage>, next: nat, detail: string)
    requires IdsBelow(messages, next)
    ensures WithoutId(messages + [ToastMessage(next, NatToString(next) + " " + detail)], next) == messages
  {
    WithoutIdConcat(messages, [ToastMessage(next, NatToString(next) + " " + detail)], next);
    WithoutAbsentId(messages, next);
  }
}

