/** The Java exceptions the core distinguishes, and calls into framework code that may throw them. */
module Exceptions {
  import opened Wrappers

  /**
   * A thrown exception. The three domain kinds are told apart by the fault
   * resolver, each standing for its class and its subclasses (`IllegalArgument`
   * also covers, say, a NumberFormatException, since the resolver's type
   * pattern matches subclasses); every other exception is `Other`, carrying
   * its simple class name and its (possibly null) message.
   */
  datatype JavaException =
    | PokemonNotFound(pokemonName: string)
    | BadRequest(msg: Option<string>)
    | IllegalArgument(msg: Option<string>)
    | Other(className: string, msg: Option<string>)
  {
    /** `getMessage()`. */
    function Message(): (m: Option<string>)
      ensures PokemonNotFound? ==> m == Some(NotFoundMessage(pokemonName))
      ensures !PokemonNotFound? ==> m == msg
    {
      match this
      case PokemonNotFound(name) => Some(NotFoundMessage(name))
      case BadRequest(m) => m
      case IllegalArgument(m) => m
      case Other(_, m) => m
    }
  }

  /** `String.format("Pokemon with name '%s' not found", pokemonName)`. */
  function NotFoundMessage(pokemonName: string): string {
    "Pokemon with name '" + pokemonName + "' not found"
  }

  /** The not-found message quotes the looked-up name verbatim, at a fixed position. */
  lemma NotFoundMessageQuotesName(pokemonName: string)
    ensures var m := NotFoundMessage(pokemonName);
            |m| == |pokemonName| + 30 && m[19..19 + |pokemonName|] == pokemonName
  {
  }

  /** The not-found message determines the name it was built from. */
  lemma NotFoundMessageInjective(a: string, b: string)
    ensures NotFoundMessage(a) == NotFoundMessage(b) <==> a == b
  {
    if NotFoundMessage(a) == NotFoundMessage(b) {
      NotFoundMessageQuotesName(a);
      NotFoundMessageQuotesName(b);
    }
  }

  /** The result of a call into code outside the core: a value, or a thrown exception. */
  datatype Call<+T> = Returns(value: T) | Throws(ex: JavaException)
}
