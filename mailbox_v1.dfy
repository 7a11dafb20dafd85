/**
 * The earlier single-slot service of app.py: one module-level message
 * record, `mensaje_actual`, that every post overwrites field by field and
 * that the device reads back unchanged.
 */
module MailboxV1 {
  import opened Wrappers
  import opened Text

  /**
   * The `mensaje_actual` dictionary. Each field is optional because a record
   * loaded from the message file may lack any of them.
   */
  datatype Record = Record(id: Option<int>, text: Option<string>, timestamp: Option<string>, isRead: Option<bool>)

  datatype PostError = EmptyText

  /** The text shown before anything has been posted. */
  const Placeholder: string := "Encara no hi ha cap missatge \U{1F48C}"

  /** The message `load_message()` builds when no file exists, stamped with `stamp`. */
  function DefaultRecord(stamp: string): (m: Record)
    ensures m.id == Some(0) && m.isRead == Some(false)
    ensures m.text == Some(Placeholder) && m.timestamp == Some(stamp)
  {
    Record(Some(0), Some(Placeholder), Some(stamp), Some(false))
  }

  /** `mensaje_actual.get("id", 0)`: a missing id counts as 0, a present one as itself. */
  function IdOrZero(m: Record): (n: int)
    ensures m.id.None? ==> n == 0
    ensures m.id.Some? ==> n == m.id.value
  {
    if m.id.Some? then m.id.value else 0
  }

  /**
   * `nuevo_mensaje`: text that is empty after strip is refused and the
   * record is left as it was; otherwise the id goes one past the previous
   * one, the stripped text and the stamp are stored, and the message is
   * marked unread.
   */
  function PostStep(m: Record, text: Option<string>, stamp: string): (r: Result<Record, PostError>)
    ensures r.Failure? <==> Strip(if text.Some? then text.value else "") == []
    ensures r.Success? ==>
      && r.value.id == Some(IdOrZero(m) + 1)
      && r.value.text == Some(Strip(text.value))
      && r.value.timestamp == Some(stamp)
      && r.value.isRead == Some(false)
  {
    var body := Strip(if text.Some? then text.value else "");
    if body == [] then Failure(EmptyText)
    else Success(Record(Some(IdOrZero(m) + 1), Some(body), Some(stamp), Some(false)))
  }

  /** The record after posting each text in turn; refused posts leave it unchanged. */
  function PostAll(m: Record, texts: seq<Option<string>>, stamp: string): Record
    decreases |texts|
  {
    if texts == [] then m
    else
      var r := PostStep(m, texts[0], stamp);
      PostAll(if r.Success? then r.value else m, texts[1..], stamp)
  }

  /** How many of the texts are accepted: those not empty after strip. */
  function Accepted(texts: seq<Option<string>>): (n: nat)
    ensures n <= |texts|
    decreases |texts|
  {
    if texts == [] then 0
    else (if Strip(if texts[0].Some? then texts[0].value else "") == [] then 0 else 1) + Accepted(texts[1..])
  }

  /**
   * Over a series of posts the id counts the accepted ones: it ends at the
   * starting id (0 when missing) plus their number, and the message is unread
   * once at least one was accepted.
   */
  lemma {:induction false} PostAllCounts(m: Record, texts: seq<Option<string>>, stamp: string)
    ensures IdOrZero(PostAll(m, texts, stamp)) == IdOrZero(m) + Accepted(texts)
    ensures Accepted(texts) > 0 ==> PostAll(m, texts, stamp).isRead == Some(false)
    ensures Accepted(texts) == 0 ==> PostAll(m, texts, stamp) == m
    decreases |texts|
  {
    if texts != [] {
      var r := PostStep(m, texts[0], stamp);
      PostAllCounts(if r.Success? then r.value else m, texts[1..], stamp);
    }
  }

  /** The service's module-level `mensaje_actual`; saving to the file is a no-op here. */
  class Board {
    var current: Record

    /** `mensaje_actual = load_message()`: the saved record, or the default one when there is none. */
    constructor (saved: Option<Record>, stamp: string)
      ensures saved.Some? ==> current == saved.value
      ensures saved.None? ==> current == DefaultRecord(stamp)
    {
      current := if saved.Some? then saved.value else DefaultRecord(stamp);
    }

    /** `nuevo_mensaje` on the already-parsed `text` field, stamped with `stamp`. */
    method Post(text: Option<string>, stamp: string) returns (r: Result<Record, PostError>)
      modifies this
      ensures r == PostStep(old(current), text, stamp)
      ensures current == (if r.Success? then r.value else old(current))
    {
      var body := Strip(if text.Some? then text.value else "");
      if body == [] {
        return Failure(EmptyText);
      }
      current := current.(id := Some(IdOrZero(current) + 1));
      current := current.(text := Some(body));
      current := current.(timestamp := Some(stamp));
      current := current.(isRead := Some(false));
      r := Success(current);
    }

    /** `ultimo_mensaje`: hands back the current record and changes nothing. */
    method Latest() returns (m: Record)
      ensures m == current
    {
      m := current;
    }
  }
}
