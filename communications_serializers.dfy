/** The communication serializers (`apps/communications/serializers.py`). */
module CommunicationSerializers {
  import opened Base
  import opened Text
  import opened Communications

  datatype CommunicationField = TitleField | MessageField

  /** `validate_title`: at least 5 characters once trimmed; the trimmed title is kept. */
  function ValidateTitle(value: string): (r: Result<string, CommunicationField>)
    ensures r.Ok? <==> |Strip(value)| >= 5
    ensures r.Ok? ==> r.value == Strip(value) && |r.value| <= |value|
    ensures r.Err? ==> r.error == TitleField
  {
    if |Strip(value)| < 5 then Err(TitleField) else Ok(Strip(value))
  }

  /** `validate_message`: at least 10 characters once trimmed; the trimmed message is kept. */
  function ValidateMessage(value: string): (r: Result<string, CommunicationField>)
    ensures r.Ok? <==> |Strip(value)| >= 10
    ensures r.Ok? ==> r.value == Strip(value) && |r.value| <= |value|
    ensures r.Err? ==> r.error == MessageField
  {
    if |Strip(value)| < 10 then Err(MessageField) else Ok(Strip(value))
  }

  /** An accepted title or message is accepted again unchanged. */
  lemma ValidationIdempotent(title: string, message: string)
    ensures ValidateTitle(title).Ok? ==> ValidateTitle(ValidateTitle(title).value) == ValidateTitle(title)
    ensures ValidateMessage(message).Ok? ==> ValidateMessage(ValidateMessage(message).value) == ValidateMessage(message)
  {
    StripIdempotent(title);
    StripIdempotent(message);
  }

  /** The users who have read a communication. */
  function ReadersOf(readBy: set<(nat, nat)>, commId: nat): (us: set<nat>)
    ensures forall u :: u in us <==> (commId, u) in readBy
  {
    set p | p in readBy && p.0 == commId :: p.1
  }

  /** `get_read_count`: the number of read records of the communication. */
  function ReadCount(readBy: set<(nat, nat)>, commId: nat): (n: nat)
    ensures n == 0 <==> forall u :: (commId, u) !in readBy
  {
    var us := ReadersOf(readBy, commId);
    assert us == {} <==> forall u :: (commId, u) !in readBy by {
      if us != {} {
        var u :| u in us;
      }
    }
    |us|
  }

  /** A new read record raises the count by one; a repeated one leaves it alone. */
  lemma ReadCountAfterRead(readBy: set<(nat, nat)>, commId: nat, user: nat)
    ensures (commId, user) in readBy ==> ReadCount(readBy + {(commId, user)}, commId) == ReadCount(readBy, commId)
    ensures (commId, user) !in readBy ==> ReadCount(readBy + {(commId, user)}, commId) == ReadCount(readBy, commId) + 1
  {
    var before := ReadersOf(readBy, commId);
    var after := ReadersOf(readBy + {(commId, user)}, commId);
    assert after == before + {user};
    if (commId, user) in readBy {
      assert user in before;
      assert after == before;
    }
  }

  /** `get_is_read_by_user`: false without an authenticated caller, else whether the caller has a read record. */
  function IsReadByUser(readBy: set<(nat, nat)>, commId: nat, caller: Option<nat>): (b: bool)
    ensures caller.None? ==> !b
    ensures caller.Some? ==> (b <==> caller.value in ReadersOf(readBy, commId))
  {
    caller.Some? && (commId, caller.value) in readBy
  }

  datatype CreateInput = CreateInput(
    title: string,
    message: string,
    commType: Option<CommunicationType>,
    priority: Option<Priority>,
    audience: Option<TargetAudience>,
    expiresAt: Option<int>)

  /** Both field validators run; every failing field is reported. */
  function CreateErrors(input: CreateInput): (errs: set<CommunicationField>)
    ensures TitleField in errs <==> ValidateTitle(input.title).Err?
    ensures MessageField in errs <==> ValidateMessage(input.message).Err?
  {
    var titleFails := ValidateTitle(input.title).Err?;
    var messageFails := ValidateMessage(input.message).Err?;
    (if titleFails then {TitleField} else {}) + (if messageFails then {MessageField} else {})
  }

  /**
   * `CreateCommunicationSerializer` and `perform_create`: the caller is the
   * author, the trimmed title and message are stored with the defaults, and
   * the save stamps the publication time.
   */
  method CreateCommunication(b: Bulletin, input: CreateInput, author: nat, now: int)
    returns (r: Result<Communication, set<CommunicationField>>)
    requires b.Valid()
    modifies b
    ensures b.Valid() && b.readBy == old(b.readBy)
    ensures r.Err? <==> CreateErrors(input) != {}
    ensures r.Err? ==> r.error == CreateErrors(input) && b.communications == old(b.communications) && b.nextId == old(b.nextId)
    ensures r.Ok? ==>
      && r.value == NewCommunication(old(b.nextId), Strip(input.title), Strip(input.message), input.commType, input.priority,
                                     input.audience, author, now, input.expiresAt).(publishedAt := Some(now))
      && b.communications == old(b.communications)[r.value.id := r.value]
      && b.nextId == old(b.nextId) + 1
  {
    var errs := CreateErrors(input);
    if errs != {} {
      return Err(errs);
    }
    var c := NewCommunication(b.nextId, ValidateTitle(input.title).value, ValidateMessage(input.message).value,
                              input.commType, input.priority, input.audience, author, now, input.expiresAt);
    b.nextId := b.nextId + 1;
    var saved := Save(b, c, now);
    r := Ok(saved);
  }
}
