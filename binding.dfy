/** How Python binds keyword arguments to a function, how a Django model's
    constructor consumes keyword arguments, and what `from m import n` needs.
    These explain the failures of calls in the core whose arguments do not fit
    their callee. */
module Binding {
  import opened Exceptions

  /** The parameters of a Python function, and those among them with a default. */
  datatype Signature = Signature(params: set<string>, defaults: set<string>)

  /** A call with the keyword arguments `kwargs` binds when each names a parameter
      and each parameter without a default is given; otherwise it raises TypeError
      (unexpected keyword argument, or missing required argument). */
  function BindKeywords(sig: Signature, kwargs: set<string>): (r: Result<()>)
    ensures r.Ok? <==> kwargs <= sig.params && sig.params - sig.defaults <= kwargs
    ensures r.Err? ==> r.error == TypeError
  {
    if kwargs <= sig.params && sig.params - sig.defaults <= kwargs then Ok(()) else Err(TypeError)
  }

  /** The concrete fields (with their `_id` attribute names) and the read-only
      properties of a Django model. */
  datatype ModelClass = ModelClass(fields: set<string>, properties: set<string>)

  /** `Model(**kwargs)`: field names are consumed; a remaining name that is a
      property is assigned at once, which fails for a property without a setter
      (AttributeError); any other remaining name is collected and refused at the
      end ("unexpected keyword arguments", TypeError). */
  function Construct(m: ModelClass, kwargs: set<string>): (r: Result<()>)
    ensures r.Ok? <==> kwargs <= m.fields
    ensures r == Err(AttributeError) <==> exists k :: k in kwargs && k !in m.fields && k in m.properties
    ensures r == Err(TypeError) <==>
      (exists k :: k in kwargs && k !in m.fields) && forall k :: k in kwargs && k !in m.fields ==> k !in m.properties
  {
    if kwargs <= m.fields then Ok(())
    else if exists k :: k in kwargs && k !in m.fields && k in m.properties then Err(AttributeError)
    else Err(TypeError)
  }

  /** `from m import names`: every name must be bound in `m`. */
  function Import(exports: set<string>, names: set<string>): (r: Result<()>)
    ensures r.Ok? <==> names <= exports
    ensures r.Err? ==> r.error == ImportError
  {
    if names <= exports then Ok(()) else Err(ImportError)
  }

  /** `Class.name` for a class attribute: AttributeError when the class body
      binds no such name. */
  function ClassAttribute(attrs: set<string>, name: string): (r: Result<()>)
    ensures r.Ok? <==> name in attrs
    ensures r.Err? ==> r.error == AttributeError
  {
    if name in attrs then Ok(()) else Err(AttributeError)
  }
}
