/**
 * `customizeFault`: the detail a SOAP fault receives for the exception that
 * produced it. The choice of branch is the total function `Classify`; the
 * method `CustomizeFault` applies it to a mutable fault.
 */
module FaultResolver {
  import opened Wrappers
  import opened JavaText
  import opened Exceptions

  /** What the resolver writes: the actor/role text and the two detail texts. */
  datatype FaultDescriptor = FaultDescriptor(actor: string, code: string, message: Option<string>)

  const NotFoundCode := "POKEMON_NOT_FOUND"
  const InvalidRequestCode := "INVALID_REQUEST"
  const BadRequestCode := "BAD_REQUEST"
  const InternalErrorCode := "INTERNAL_ERROR"
  const InternalErrorActor := "Internal server error"
  const InternalErrorMessage := "An unexpected error occurred"

  /** The actor prefix of each domain kind; the generic kind has a fixed actor instead. */
  function ActorPrefix(ex: JavaException): string {
    match ex
    case PokemonNotFound(_) => "Pokemon not found: "
    case BadRequest(_) => "Invalid request: "
    case IllegalArgument(_) => "Bad request: "
    case Other(_, _) => ""
  }

  /** The switch in `customizeFault`, one case per exception kind. */
  function Classify(ex: JavaException): (f: FaultDescriptor)
    ensures f.code in {NotFoundCode, InvalidRequestCode, BadRequestCode, InternalErrorCode}
    ensures ex.PokemonNotFound? <==> f.code == NotFoundCode
    ensures ex.BadRequest? <==> f.code == InvalidRequestCode
    ensures ex.IllegalArgument? <==> f.code == BadRequestCode
    ensures ex.Other? <==> f.code == InternalErrorCode
    ensures !ex.Other? ==> (f.message == ex.Message() && f.actor == ActorPrefix(ex) + JavaString(ex.Message()))
    ensures ex.Other? ==> f.actor == InternalErrorActor && f.message == Some(InternalErrorMessage)
  {
    match ex
    case PokemonNotFound(_) => FaultDescriptor(ActorPrefix(ex) + JavaString(ex.Message()), NotFoundCode, ex.Message())
    case BadRequest(_) => FaultDescriptor(ActorPrefix(ex) + JavaString(ex.Message()), InvalidRequestCode, ex.Message())
    case IllegalArgument(_) => FaultDescriptor(ActorPrefix(ex) + JavaString(ex.Message()), BadRequestCode, ex.Message())
    case Other(_, _) => FaultDescriptor(InternalErrorActor, InternalErrorCode, Some(InternalErrorMessage))
  }

  /** The fault code identifies the exception kind: equal codes mean the same kind. */
  lemma CodeDeterminesKind(a: JavaException, b: JavaException)
    ensures Classify(a).code == Classify(b).code <==>
            (a.PokemonNotFound? && b.PokemonNotFound?) || (a.BadRequest? && b.BadRequest?)
            || (a.IllegalArgument? && b.IllegalArgument?) || (a.Other? && b.Other?)
  {
  }

  /** An unexpected exception's own class and message never reach the fault. */
  lemma InternalErrorHidesException(a: JavaException, b: JavaException)
    requires a.Other? && b.Other?
    ensures Classify(a) == Classify(b)
  {
  }

  /** For a failed lookup both the actor text and the detail message quote the name. */
  lemma NotFoundFaultQuotesName(pokemonName: string)
    ensures var f := Classify(PokemonNotFound(pokemonName));
            && f.message.Some?
            && f.message.value[19..19 + |pokemonName|] == pokemonName
            && f.actor[38..38 + |pokemonName|] == pokemonName
  {
    NotFoundMessageQuotesName(pokemonName);
    var m := NotFoundMessage(pokemonName);
    var f := Classify(PokemonNotFound(pokemonName));
    assert f.message == Some(m);
    var prefix := "Pokemon not found: ";
    assert |prefix| == 19;
    assert f.actor == prefix + m;
    assert f.actor[38..38 + |pokemonName|] == m[19..19 + |pokemonName|];
  }

  /** One detail element: its qualified name and its text (a null text is `None`). */
  datatype DetailElement = DetailElement(name: string, text: Option<string>)

  /** The mutable SOAP fault the resolver customises. */
  class SoapFault {
    var actorOrRole: Option<string>
    var details: seq<seq<DetailElement>>

    constructor ()
      ensures actorOrRole.None? && details == []
    {
      actorOrRole := None;
      details := [];
    }
  }

  /**
   * `customizeFault(endpoint, ex, fault)`: set the actor/role and add exactly
   * one detail holding one `code` element and one `message` element.
   */
  method CustomizeFault(ex: JavaException, fault: SoapFault)
    modifies fault
    ensures fault.actorOrRole == Some(Classify(ex).actor)
    ensures fault.details == old(fault.details)
              + [[DetailElement("code", Some(Classify(ex).code)), DetailElement("message", Classify(ex).message)]]
  {
    var f := Classify(ex);
    fault.actorOrRole := Some(f.actor);
    var detail: seq<DetailElement> := [];
    detail := detail + [DetailElement("code", Some(f.code))];
    detail := detail + [DetailElement("message", f.message)];
    assert detail == [DetailElement("code", Some(f.code)), DetailElement("message", f.message)];
    fault.details := fault.details + [detail];
  }
}
