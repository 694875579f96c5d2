/** The optional value used across the model: `None` stands for JavaScript's
    `undefined`/`null` result, or for `NaN` where a number is parsed. */
module Options {
  datatype Option<T> = None | Some(value: T)
}
