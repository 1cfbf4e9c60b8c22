/** HTTP verbs, as Go's `http.Method*` constants name them. */
module Http {
  datatype Method = Get | Head | Post | Put | Patch | Delete | Connect | Options | Trace
}

/**
 * The authenticated user. The predicates `isAdmin` and `isMultiApp` live in the
 * auth package, which is not part of this model: their answers are carried as flags.
 */
module Auth {
  datatype User = User(username: string, admin: bool, multiApp: bool)
}

/** Just enough JSON to speak about the `results` envelope. */
module Json {
  datatype Value =
    | Null
    | Bool(b: bool)
    | Number(n: int)
    | Str(s: string)
    | Array(items: seq<Value>)
    | Object(fields: map<string, Value>)
}
