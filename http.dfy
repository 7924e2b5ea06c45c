/** The outcome of an axios GET as the components see it. */
module Http {
  import opened Wrappers

  /** `Ok(data)` is a 2xx response whose body is `data` (`None` for an empty or null body);
      `Failed(status)` is a rejected request, with the HTTP status when a response arrived. */
  datatype Response<T> = Ok(data: Option<T>) | Failed(status: Option<int>)

  /** `if (!country)`: a null or empty country code is falsy. */
  predicate Truthy(s: Option<string>) {
    s.Some? && s.value != ""
  }
}
