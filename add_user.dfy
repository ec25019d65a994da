/**
 * The dual-schema response selection of PlexClient.AddUser: the raw body is
 * parsed as the success schema first, and only when that parse throws
 * InvalidOperationException is it parsed as the error schema.
 */
module AddUserResponse {
  import opened Wrappers

  /**
   * What an XML deserialisation call does: return a value or throw. A
   * returned value is never null; a `Threw(InvalidOperation)` stands for any
   * exception the `catch (InvalidOperationException)` clause catches.
   */
  datatype Parse<T> = Parsed(value: T) | Threw(exception: Exception)

  /** PlexAddWrapper: the success payload (Add) or the error payload (Error). */
  datatype PlexAddWrapper<A, E> = PlexAddWrapper(add: Option<A>, error: Option<E>)

  /**
   * The outcome of AddUser for response body `content`: a wrapper, or the
   * exception that escapes the method.
   */
  function SelectAddResult<A, E>(content: string, parseAdd: string -> Parse<A>, parseError: string -> Parse<E>)
    : (r: Result<PlexAddWrapper<A, E>, Exception>)
    ensures r.Ok? ==> (r.value.add.Some? <==> r.value.error.None?)
  {
    match parseAdd(content)
    case Parsed(add) => Ok(PlexAddWrapper(Some(add), None))
    case Threw(InvalidOperation) =>
      (match parseError(content)
       case Parsed(error) => Ok(PlexAddWrapper(None, Some(error)))
       case Threw(e) => Err(e))
    case Threw(e) => Err(e)
  }

  /** Add is set, and Error unset, exactly when the success parse returns; Add then holds its value. */
  lemma AddSelected<A, E>(content: string, parseAdd: string -> Parse<A>, parseError: string -> Parse<E>)
    ensures var r := SelectAddResult(content, parseAdd, parseError);
            (r.Ok? && r.value.add.Some?) <==> parseAdd(content).Parsed?
    ensures var r := SelectAddResult(content, parseAdd, parseError);
            parseAdd(content).Parsed? ==> r == Ok(PlexAddWrapper(Some(parseAdd(content).value), None))
  {
  }

  /**
   * Error is set, and Add unset, exactly when the success parse throws
   * InvalidOperationException and the error parse returns; Error then holds
   * the error parse's value.
   */
  lemma ErrorSelected<A, E>(content: string, parseAdd: string -> Parse<A>, parseError: string -> Parse<E>)
    ensures var r := SelectAddResult(content, parseAdd, parseError);
            (r.Ok? && r.value.error.Some?)
            <==> (parseAdd(content) == Threw(InvalidOperation) && parseError(content).Parsed?)
    ensures var r := SelectAddResult(content, parseAdd, parseError);
            parseAdd(content) == Threw(InvalidOperation) && parseError(content).Parsed?
            ==> r == Ok(PlexAddWrapper(None, Some(parseError(content).value)))
  {
  }

  /**
   * No wrapper is returned exactly when the success parse throws something
   * other than InvalidOperationException, or throws it and the error parse
   * throws too; the exception that escapes is the last one thrown.
   */
  lemma FailurePropagates<A, E>(content: string, parseAdd: string -> Parse<A>, parseError: string -> Parse<E>)
    ensures var r := SelectAddResult(content, parseAdd, parseError);
            r.Err? <==> (parseAdd(content).Threw?
                         && (parseAdd(content).exception != InvalidOperation || parseError(content).Threw?))
    ensures var r := SelectAddResult(content, parseAdd, parseError);
            parseAdd(content).Threw? && parseAdd(content).exception != InvalidOperation
            ==> r == Err(parseAdd(content).exception)
    ensures var r := SelectAddResult(content, parseAdd, parseError);
            parseAdd(content) == Threw(InvalidOperation) && parseError(content).Threw?
            ==> r == Err(parseError(content).exception)
  {
  }

  /** The error schema is consulted only after InvalidOperationException: otherwise its parser is irrelevant. */
  lemma ErrorParserOnlyOnInvalidOperation<A, E>(
    content: string, parseAdd: string -> Parse<A>, parseError1: string -> Parse<E>, parseError2: string -> Parse<E>)
    requires parseAdd(content) != Threw(InvalidOperation)
    ensures SelectAddResult(content, parseAdd, parseError1) == SelectAddResult(content, parseAdd, parseError2)
  {
  }
}
