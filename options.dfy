/** An optional value: `None` stands for JavaScript's `null`/`undefined`/`NaN`
    wherever the site's code tests for "no value". */
module Options {

  datatype Option<+T> = None | Some(value: T)
}
