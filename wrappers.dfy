/** Optional values and results with an error channel, used for Python's
    `None` and for the exceptions the modelled code raises. */
module Wrappers {

  datatype Option<+T> = None | Some(value: T)

  datatype Result<+R, +E> = Success(value: R) | Failure(error: E)
}

/** The Python exceptions that the modelled code raises. */
module Errors {

  datatype Error =
    | TypeError(message: string)   // e.g. `x in None`, iterating `None`
    | KeyError(key: string)        // `dict.pop(key)` on a missing key
    | ValueError(message: string)  // raised explicitly by a validator or method
}

/** The values held by a dumped model (a pydantic `model_dump`): the property
    bag handed to the provisioning backend. Python's `None` is kept outside
    this type, as `Option.None`, because dumps drop it. */
module Values {

  datatype Value =
    | Str(s: string)
    | Int(i: int)
    | Bool(b: bool)
    | List(items: seq<Value>)
    | Dict(entries: map<string, Value>)
}
