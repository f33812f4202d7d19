/** internal/telegram/bot.go: dispatching one update, folding the offset, and the program as it runs. */
module Telegram {
  import opened Wrappers
  import opened GoStrings
  import opened Decimal
  import opened Commands
  import opened FrontEnds

  datatype Message = Message(from: Option<int>, chat: int, text: string)

  datatype Update = Update(id: int, message: Option<Message>)

  // ---------- dispatching one update ----------

  datatype Access = Access(users: seq<string>, chats: seq<string>)

  /** A call of the command handler. */
  datatype Request = Request(text: string, source: Source)

  function SourceOf(m: Message): Source {
    Source("telegram", if m.from.Some? then FormatInt(m.from.value) else "", FormatInt(m.chat))
  }

  /** The handler call an update leads to, if any. */
  function RequestsOf(access: Access, u: Update): seq<Request> {
    if u.message.None? || u.message.value.text == "" then [] else
    var source := SourceOf(u.message.value);
    if !Admits(access.users, access.chats, source.userID, source.chatID) then [] else
    [Request(NormalizedMessage(u.message.value.text), source)]
  }

  /** The update is a text of a sender who may use the bot: nobody is listed, or the sender or the chat is. */
  predicate IsServed(access: Access, u: Update) {
    && u.message.Some? && u.message.value.text != ""
    && var m := u.message.value;
       || (access.users == [] && access.chats == [])
       || (if m.from.Some? then FormatInt(m.from.value) else "") in access.users
       || FormatInt(m.chat) in access.chats
  }

  /** The call names the sender and the chat, and asks for the fields of the message with the mention cut. */
  ghost predicate IsRequestFor(m: Message, r: Request) {
    && r.source == Source("telegram", if m.from.Some? then FormatInt(m.from.value) else "", FormatInt(m.chat))
    && FieldsWithoutMention(Fields(m.text), Fields(r.text))
  }

  /** An update makes one handler call when it is served and none otherwise, and that call is the one meant. */
  lemma RequestMeaning(access: Access, u: Update)
    ensures |RequestsOf(access, u)| == if IsServed(access, u) then 1 else 0
    ensures IsServed(access, u) ==> IsRequestFor(u.message.value, RequestsOf(access, u)[0])
  {
    if u.message.Some? {
      NormalizedFields(u.message.value.text);
    }
  }

  // ---------- the offset fold ----------

  function Bump(offset: int, u: Update): int {
    if u.id >= offset then u.id + 1 else offset
  }

  function OffsetAfter(offset: int, batch: seq<Update>): int {
    if batch == [] then offset else Bump(OffsetAfter(offset, batch[..|batch| - 1]), batch[|batch| - 1])
  }

  lemma OffsetAfterOneMore(offset: int, batch: seq<Update>, i: nat)
    requires i < |batch|
    ensures OffsetAfter(offset, batch[..i + 1]) == Bump(OffsetAfter(offset, batch[..i]), batch[i])
  {
    assert batch[..i + 1][..i] == batch[..i];
  }

  /** The least bound, not below the old offset, that every id of the batch is under. */
  ghost predicate IsOffsetAfter(offset: int, batch: seq<Update>, o: int) {
    && o >= offset && (forall i | 0 <= i < |batch| :: batch[i].id < o)
    && (o == offset || exists i | 0 <= i < |batch| :: batch[i].id + 1 == o)
  }

  /** The fold is max(offset, 1 + largest id), in whatever order the batch arrives. */
  lemma {:induction false} OffsetAfterIsMax(offset: int, batch: seq<Update>)
    ensures IsOffsetAfter(offset, batch, OffsetAfter(offset, batch))
    ensures forall o :: IsOffsetAfter(offset, batch, o) ==> o == OffsetAfter(offset, batch)
  {
    if batch != [] {
      var init := batch[..|batch| - 1];
      OffsetAfterIsMax(offset, init);
      assert forall i | 0 <= i < |init| :: init[i] == batch[i];
    }
  }

  lemma OffsetAfterIgnoresOrder(offset: int, a: seq<Update>, b: seq<Update>)
    requires multiset(a) == multiset(b)
    ensures OffsetAfter(offset, a) == OffsetAfter(offset, b)
  {
    OffsetAfterIsMax(offset, a);
    OffsetAfterIsMax(offset, b);
    var o := OffsetAfter(offset, a);
    forall i | 0 <= i < |b| ensures b[i].id < o {
      assert b[i] in multiset(b);
      assert b[i] in a;
    }
    if o != offset {
      var i :| 0 <= i < |a| && a[i].id + 1 == o;
      assert a[i] in multiset(a);
      assert a[i] in b;
    }
  }

  // ---------- the running bot ----------

  /** The updates handed to handleUpdate, and the handler calls made for them. */
  class Bot {
    const access: Access
    var offset: int
    var handled: seq<Update>
    var calls: seq<seq<Request>>

    /** Each handled update made the handler call it leads to, and no other. */
    ghost predicate Valid()
      reads this
    {
      |calls| == |handled| && forall k | 0 <= k < |handled| :: calls[k] == RequestsOf(access, handled[k])
    }

    constructor (access: Access)
      ensures Valid() && this.access == access && offset == 0 && handled == []
    {
      this.access := access;
      offset, handled, calls := 0, [], [];
    }

    method HandleUpdate(u: Update)
      requires Valid()
      modifies this`handled, this`calls
      ensures Valid() && handled == old(handled) + [u]
    {
      var made := Process(u);
      handled := handled + [u];
      calls := calls + [made];
    }

    /** The handler call an update leads to: none without text, and none for a sender who is not admitted. */
    method Process(u: Update) returns (made: seq<Request>)
      ensures made == RequestsOf(access, u)
      ensures |made| == if IsServed(access, u) then 1 else 0
      ensures IsServed(access, u) ==> IsRequestFor(u.message.value, made[0])
    {
      RequestMeaning(access, u);
      if u.message.None? || u.message.value.text == "" {
        return [];
      }
      var m := u.message.value;
      var userID := "";
      if m.from.Some? {
        userID := FormatInt(m.from.value);
      }
      var chatID := FormatInt(m.chat);
      var allowed := IsAllowed(access.users, access.chats, userID, chatID);
      if !allowed {
        return [];
      }
      var cmd := NormalizeMessageCommand(m.text);
      return [Request(cmd, Source("telegram", userID, chatID))];
    }

    /** The skipping loop: only the offset moves. */
    method Skip(updates: seq<Update>)
      modifies this`offset
      ensures offset == OffsetAfter(old(offset), updates)
    {
      for i := 0 to |updates|
        invariant offset == OffsetAfter(old(offset), updates[..i])
      {
        assert updates[..i + 1][..i] == updates[..i];
        if updates[i].id >= offset {
          offset := updates[i].id + 1;
        }
      }
      assert updates[..|updates|] == updates;
    }

    /** One turn of the dispatching loop. */
    method ConsumeOne(u: Update)
      requires Valid()
      modifies this
      ensures Valid() && handled == old(handled) + [u] && offset == Bump(old(offset), u)
    {
      if u.id >= offset {
        offset := u.id + 1;
      }
      HandleUpdate(u);
    }

    /** The dispatching loop: every update of the batch is handled, also one below the offset. */
    method Consume(updates: seq<Update>)
      requires Valid()
      modifies this
      ensures Valid() && handled == old(handled) + updates
      ensures offset == OffsetAfter(old(offset), updates)
    {
      for i := 0 to |updates|
        invariant Valid()
        invariant handled == old(handled) + updates[..i]
        invariant offset == OffsetAfter(old(offset), updates[..i])
      {
        ConsumeOne(updates[i]);
        OffsetAfterOneMore(old(offset), updates, i);
        assert updates[..i + 1] == updates[..i] + [updates[i]];
      }
      assert updates[..|updates|] == updates;
    }

    /** The run: an optional drop call, then one poll after another; None is a failed call. */
    method Run(dropPending: bool, first: Option<seq<Update>>, polls: seq<Option<seq<Update>>>)
      requires Valid() && offset == 0 && handled == []
      modifies this
      ensures offset == OffsetAfter(OffsetAfter(0, if dropPending then first.Or([]) else []), Delivered(polls))
      ensures Valid() && handled == Delivered(polls)
    {
      if dropPending {
        Skip(first.Or([]));
      }
      ghost var start := offset;
      for i := 0 to |polls|
        invariant offset == OffsetAfter(start, Delivered(polls[..i]))
        invariant Valid() && handled == Delivered(polls[..i])
      {
        assert polls[..i + 1][..i] == polls[..i];
        assert Delivered(polls[..i + 1]) == Delivered(polls[..i]) + polls[i].Or([]);
        if polls[i].None? {
          assert Delivered(polls[..i]) + [] == Delivered(polls[..i]);
          continue;
        }
        OffsetAfterAppend(start, Delivered(polls[..i]), polls[i].value);
        Consume(polls[i].value);
      }
      assert polls[..|polls|] == polls;
    }
  }

  /** The batches that arrived, one after the other. */
  function Delivered(polls: seq<Option<seq<Update>>>): seq<Update> {
    if polls == [] then [] else Delivered(polls[..|polls| - 1]) + polls[|polls| - 1].Or([])
  }

  /** Batches are delivered in the order of the polls that brought them, and a failed poll brings nothing. */
  lemma {:induction false} DeliveredMeaning(a: seq<Option<seq<Update>>>, b: seq<Option<seq<Update>>>)
    ensures Delivered(a + b) == Delivered(a) + Delivered(b)
    ensures |b| == 1 ==> Delivered(b) == match b[0] case Some(batch) => batch case None => []
  {
    if b == [] {
      assert a + b == a;
    } else {
      var n := |b| - 1;
      assert (a + b)[..|a + b| - 1] == a + b[..n];
      DeliveredMeaning(a, b[..n]);
    }
  }

  lemma {:induction false} OffsetAfterAppend(offset: int, a: seq<Update>, b: seq<Update>)
    ensures OffsetAfter(offset, a + b) == OffsetAfter(OffsetAfter(offset, a), b)
  {
    if b == [] {
      assert a + b == a;
    } else {
      var n := |b| - 1;
      assert (a + b)[..|a + b| - 1] == a + b[..n];
      OffsetAfterAppend(offset, a, b[..n]);
    }
  }
}
