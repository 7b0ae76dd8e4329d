/**
 The state of the fichas page and its transitions.

 The page keeps five pieces of state: the list of records, the creation
 draft, a `loading` flag and two independent message slots, `error` and
 `success`. Each handler, once the outcome of its remote call is given as an
 input, is a pure function from state to state.
 */
module FichaTemplate {
  import opened Wrappers
  import opened Fichas
  import opened FichaList

  datatype State = State(
    fichas: seq<Ficha>,
    draft: Draft,
    loading: bool,
    error: Option<string>,
    success: Option<string>)

  const NotArrayMessage: string := "La respuesta no es un arreglo"
  const CreatedMessage: string := "Ficha creada con éxito."
  const CreateErrorMessage: string := "Error al crear la ficha."
  const DeletedMessage: string := "Ficha eliminada con éxito."
  const DeleteErrorMessage: string := "Error al eliminar la ficha."

  /** The state when the page mounts: nothing loaded yet, loading in progress. */
  function Init(): (s: State)
    ensures s.fichas == []
    ensures forall f: Field :: Get(s.draft, f) == ""
    ensures s.loading
    ensures s.error == None && s.success == None
  {
    State([], EmptyDraft, true, None, None)
  }

  /** The list request answered with an array: it becomes the list. */
  function LoadOk(s: State, data: seq<Ficha>): (r: State)
    ensures r.fichas == data
    ensures !r.loading
    ensures r.error == s.error && r.success == s.success && r.draft == s.draft
  {
    s.(fichas := data, loading := false)
  }

  /** The list request failed, with the failure's message. */
  function LoadFail(s: State, message: string): (r: State)
    ensures r.fichas == s.fichas
    ensures r.error == Some(message)
    ensures !r.loading
    ensures r.success == s.success && r.draft == s.draft
  {
    s.(error := Some(message), loading := false)
  }

  /** The list request answered with something other than an array: the thrown error is caught like any failure. */
  function LoadNotArray(s: State): (r: State)
    ensures r.fichas == s.fichas
    ensures r.error == Some(NotArrayMessage)
    ensures !r.loading
    ensures r.success == s.success && r.draft == s.draft
  {
    LoadFail(s, NotArrayMessage)
  }

  /** The create request succeeded and the server returned `rec`. */
  function CreateOk(s: State, rec: Ficha): (r: State)
    ensures |r.fichas| == |s.fichas| + 1
    ensures r.fichas[..|s.fichas|] == s.fichas
    ensures r.fichas[|s.fichas|] == rec
    ensures forall f: Field :: Get(r.draft, f) == ""
    ensures r.success == Some(CreatedMessage)
    ensures r.error == s.error && r.loading == s.loading
  {
    s.(fichas := s.fichas + [rec], draft := EmptyDraft, success := Some(CreatedMessage))
  }

  /** The create request failed: only the error slot changes. */
  function CreateFail(s: State): (r: State)
    ensures r.error == Some(CreateErrorMessage)
    ensures r.fichas == s.fichas && r.draft == s.draft
    ensures r.success == s.success && r.loading == s.loading
  {
    s.(error := Some(CreateErrorMessage))
  }

  /** The delete request for `id` succeeded: every record with that id leaves the list. */
  function DeleteOk(s: State, id: Id): (r: State)
    ensures !HasId(r.fichas, id)
    ensures forall f :: f in r.fichas <==> f in s.fichas && f.id != id
    ensures forall f :: multiset(r.fichas)[f] == if f.id != id then multiset(s.fichas)[f] else 0
    ensures SubseqOf(r.fichas, s.fichas)
    ensures r.success == Some(DeletedMessage)
    ensures r.error == s.error && r.draft == s.draft && r.loading == s.loading
  {
    forall f ensures f in Remove(s.fichas, id) <==> f in s.fichas && f.id != id {
      RemoveMembership(s.fichas, id, f);
    }
    forall f ensures multiset(Remove(s.fichas, id))[f] == if f.id != id then multiset(s.fichas)[f] else 0 {
      RemoveCounts(s.fichas, id, f);
    }
    s.(fichas := Remove(s.fichas, id), success := Some(DeletedMessage))
  }

  /** The delete request failed: only the error slot changes. */
  function DeleteFail(s: State): (r: State)
    ensures r.error == Some(DeleteErrorMessage)
    ensures r.fichas == s.fichas && r.draft == s.draft
    ensures r.success == s.success && r.loading == s.loading
  {
    s.(error := Some(DeleteErrorMessage))
  }

  /** An input of the form changed: only the named draft field takes the new value. */
  function Change(s: State, field: Field, value: string): (r: State)
    ensures Get(r.draft, field) == value
    ensures forall g: Field :: g != field ==> Get(r.draft, g) == Get(s.draft, g)
    ensures r.fichas == s.fichas && r.loading == s.loading
    ensures r.error == s.error && r.success == s.success
  {
    s.(draft := Set(s.draft, field, value))
  }

  /** One handler run, together with the outcome of its remote call. */
  datatype Event =
    | Loaded(data: seq<Ficha>)
    | LoadedNotArray
    | LoadFailed(message: string)
    | Created(rec: Ficha)
    | CreateFailed
    | Deleted(id: Id)
    | DeleteFailed
    | Changed(field: Field, value: string)

  function Step(s: State, e: Event): State
  {
    match e
    case Loaded(data) => LoadOk(s, data)
    case LoadedNotArray => LoadNotArray(s)
    case LoadFailed(message) => LoadFail(s, message)
    case Created(rec) => CreateOk(s, rec)
    case CreateFailed => CreateFail(s)
    case Deleted(id) => DeleteOk(s, id)
    case DeleteFailed => DeleteFail(s)
    case Changed(field, value) => Change(s, field, value)
  }

  /** The state after the handlers of `es` run one at a time, first to last. */
  function Run(s: State, es: seq<Event>): State
    decreases |es|
  {
    if |es| == 0 then s else Run(Step(s, es[0]), es[1..])
  }

  /** The message an event writes into the error slot, if it writes one. */
  function ErrorOf(e: Event): Option<string>
  {
    match e
    case LoadedNotArray => Some(NotArrayMessage)
    case LoadFailed(message) => Some(message)
    case CreateFailed => Some(CreateErrorMessage)
    case DeleteFailed => Some(DeleteErrorMessage)
    case _ => None
  }

  /** The message an event writes into the success slot, if it writes one. */
  function SuccessOf(e: Event): Option<string>
  {
    match e
    case Created(_) => Some(CreatedMessage)
    case Deleted(_) => Some(DeletedMessage)
    case _ => None
  }

  /**
   The two message slots are written independently and never cleared: each
   event either overwrites a slot with its own message or leaves it alone.
   */
  lemma StepMessages(s: State, e: Event)
    ensures Step(s, e).error == if ErrorOf(e).Some? then ErrorOf(e) else s.error
    ensures Step(s, e).success == if SuccessOf(e).Some? then SuccessOf(e) else s.success
    ensures !(ErrorOf(e).Some? && SuccessOf(e).Some?)
  {
  }

  /** Once a message slot is set, it stays set for the rest of any run. */
  lemma {:induction false} RunKeepsMessages(s: State, es: seq<Event>)
    ensures s.error.Some? ==> Run(s, es).error.Some?
    ensures s.success.Some? ==> Run(s, es).success.Some?
    decreases |es|
  {
    if |es| > 0 {
      StepMessages(s, es[0]);
      RunKeepsMessages(Step(s, es[0]), es[1..]);
    }
  }

  /** After a failure and then a success, each slot holds its handler's message. */
  lemma FailureThenSuccessShowsBoth(s: State, failure: Event, ok: Event)
    requires ErrorOf(failure).Some?
    requires SuccessOf(ok).Some?
    ensures Run(s, [failure, ok]).error == ErrorOf(failure)
    ensures Run(s, [failure, ok]).success == SuccessOf(ok)
  {
    assert [failure, ok][1..] == [ok];
    assert [failure, ok][1..][1..] == [];
    var mid := Step(s, failure);
    assert Run(s, [failure, ok]) == Run(mid, [ok]) == Run(Step(mid, ok), []);
    StepMessages(s, failure);
    StepMessages(mid, ok);
  }

  /** Any run that includes a failure ends with the error slot set. */
  lemma {:induction false} RunWithFailureSetsError(s: State, es: seq<Event>, k: nat)
    requires k < |es|
    requires ErrorOf(es[k]).Some?
    ensures Run(s, es).error.Some?
    decreases |es|
  {
    StepMessages(s, es[0]);
    if k == 0 {
      RunKeepsMessages(Step(s, es[0]), es[1..]);
    } else {
      RunWithFailureSetsError(Step(s, es[0]), es[1..], k - 1);
    }
  }

  /** Any run that includes a successful create or delete ends with the success slot set. */
  lemma {:induction false} RunWithSuccessSetsSuccess(s: State, es: seq<Event>, k: nat)
    requires k < |es|
    requires SuccessOf(es[k]).Some?
    ensures Run(s, es).success.Some?
    decreases |es|
  {
    StepMessages(s, es[0]);
    if k == 0 {
      RunKeepsMessages(Step(s, es[0]), es[1..]);
    } else {
      RunWithSuccessSetsSuccess(Step(s, es[0]), es[1..], k - 1);
    }
  }

  /** A run with both a failure and a success, in either order, ends with both slots set. */
  lemma RunWithFailureAndSuccessSetsBoth(s: State, es: seq<Event>, i: nat, j: nat)
    requires i < |es| && j < |es|
    requires ErrorOf(es[i]).Some?
    requires SuccessOf(es[j]).Some?
    ensures Run(s, es).error.Some? && Run(s, es).success.Some?
  {
    RunWithFailureSetsError(s, es, i);
    RunWithSuccessSetsSuccess(s, es, j);
  }

  /** Once loading has finished it never starts again. */
  lemma {:induction false} RunKeepsLoaded(s: State, es: seq<Event>)
    ensures !s.loading ==> !Run(s, es).loading
    decreases |es|
  {
    if |es| > 0 {
      RunKeepsLoaded(Step(s, es[0]), es[1..]);
    }
  }

  /** Only the list load touches `loading`; any run that contains a load ends with it false. */
  lemma {:induction false} RunWithLoadIsLoaded(s: State, es: seq<Event>, k: nat)
    requires k < |es|
    requires es[k].Loaded? || es[k].LoadedNotArray? || es[k].LoadFailed?
    ensures !Run(s, es).loading
    decreases |es|
  {
    if k == 0 {
      RunKeepsLoaded(Step(s, es[0]), es[1..]);
    } else {
      RunWithLoadIsLoaded(Step(s, es[0]), es[1..], k - 1);
    }
  }

  /** Mounting and receiving an array shows exactly that array, with no message. */
  lemma LoadAfterMount(data: seq<Ficha>, message: string)
    ensures LoadOk(Init(), data).fichas == data
    ensures LoadOk(Init(), data).error == None
    ensures LoadNotArray(Init()).fichas == []
    ensures LoadFail(Init(), message).fichas == []
  {
  }

  /** Deleting the same id twice gives the same state as deleting it once. */
  lemma DeleteTwice(s: State, id: Id)
    ensures DeleteOk(DeleteOk(s, id), id) == DeleteOk(s, id)
  {
    RemoveIdempotent(s.fichas, id);
  }

  /** Deleting a record just created, under a fresh id, restores the list. */
  lemma CreateThenDelete(s: State, rec: Ficha)
    requires !HasId(s.fichas, rec.id)
    ensures DeleteOk(CreateOk(s, rec), rec.id).fichas == s.fichas
  {
    RemoveAfterAppend(s.fichas, rec);
    RemoveAbsent(s.fichas, rec.id);
  }

  /** Edits to the draft made before a successful create do not survive it. */
  lemma CreateDiscardsEdits(s: State, field: Field, value: string, rec: Ficha)
    ensures CreateOk(Change(s, field, value), rec) == CreateOk(s, rec)
  {
  }

  /** A later change of the same field overrides an earlier one. */
  lemma ChangeTwice(s: State, field: Field, v: string, w: string)
    ensures Change(Change(s, field, v), field, w) == Change(s, field, w)
  {
    SetSet(s.draft, field, v, w);
  }

  /** Re-entering a field's current value changes nothing. */
  lemma ChangeSameValue(s: State, field: Field)
    ensures Change(s, field, Get(s.draft, field)) == s
  {
    SetGet(s.draft, field);
  }
}
