/** The service-layer error taxonomy of config/utils/exceptions.py, and the
    other failures the modelled operations can end in. */
module Exceptions {
  import opened Basics

  /** `AppException` and its three subclasses. */
  datatype ExceptionClass =
    | AppExceptionClass
    | BadRequestException
    | NotFoundException
    | ForbiddenException

  /** The class attribute `default_message`. */
  function DefaultMessage(c: ExceptionClass): (m: string)
    ensures m != ""
  {
    match c
    case AppExceptionClass => "Application error"
    case BadRequestException => "Bad request"
    case NotFoundException => "Resource not found"
    case ForbiddenException => "You do not have permission to perform this action"
  }

  /** `c` is `parent` or derives from it: every class derives from AppException,
      and the three subclasses derive from nothing else. */
  predicate IsSubclass(c: ExceptionClass, parent: ExceptionClass) {
    c == parent || parent == AppExceptionClass
  }

  datatype AppException = AppException(cls: ExceptionClass, message: string)

  predicate IsInstance(e: AppException, c: ExceptionClass) {
    IsSubclass(e.cls, c)
  }

  /** `cls(message)`: the constructor keeps `message or default_message`. */
  function Raise(cls: ExceptionClass, message: Option<string>): (e: AppException)
    ensures e.cls == cls && e.message != ""
    ensures message.Some? && message.value != "" ==> e.message == message.value
    ensures message.None? || message.value == "" ==> e.message == DefaultMessage(cls)
  {
    AppException(cls, if message.Some? && message.value != "" then message.value else DefaultMessage(cls))
  }

  /** Every raised exception is an AppException, and it is an instance of at most
      one of the three subclasses. */
  lemma SubclassesDisjoint(e: AppException)
    ensures IsInstance(e, AppExceptionClass)
    ensures !(IsInstance(e, BadRequestException) && IsInstance(e, NotFoundException))
    ensures !(IsInstance(e, BadRequestException) && IsInstance(e, ForbiddenException))
    ensures !(IsInstance(e, NotFoundException) && IsInstance(e, ForbiddenException))
  {
  }

  /** How a modelled operation can fail. */
  datatype Error =
    | App(exception: AppException)      // BadRequest / NotFound / Forbidden
    | Http404                           // get_object_or_404 found no row
    | DoesNotExist                      // Model.objects.get found no row
    | ValueError(message: string)
    | ValidationError(message: string)  // a model `clean` or a serializer validator
    | IntegrityError                    // a unique or foreign-key constraint refused the write
    | DataError                         // a value out of a DecimalField's range
    | TypeError                         // a call or constructor refused its arguments, arithmetic on None
    | AttributeError                    // attribute access through a null reference, or a set of a read-only property
    | ImportError                       // a `from ... import` of a name the module does not define
    | InvalidOperation                  // `Decimal(...)` of a value that is not a number

  datatype Result<+T> = Ok(value: T) | Err(error: Error)

  function BadRequest(message: string): Error {
    App(Raise(BadRequestException, Some(message)))
  }

  function NotFound(message: string): Error {
    App(Raise(NotFoundException, Some(message)))
  }

  function Forbidden(message: string): Error {
    App(Raise(ForbiddenException, Some(message)))
  }
}
