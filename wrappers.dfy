/** Null-able values, results that may carry an exception, and the exceptions
    the entity pipeline and the entity processor raise. */
module Wrappers {

  /** A C# reference that may be null: None stands for null. */
  datatype Option<+T> = None | Some(value: T)

  /** The outcome of a C# member that either returns a value or throws. */
  datatype Result<+R, +E> = Success(value: R) | Failure(error: E)

  /** `string.IsNullOrEmpty`, and the `list == null || list.Count == 0` test,
      for any null-able sequence. */
  predicate IsNullOrEmpty<T>(l: Option<seq<T>>) {
    l.None? || |l.value| == 0
  }

  /** The exceptions raised by the modelled members, one per kind of exception. */
  datatype SpiderError =
    | NullEntityDefine                      // ArgumentException: null entity added to a db pipeline
    | DefaultDbConnectionUnfound            // no explicit connect string and no default configuration
    | SettingsAndRefresherUnfound           // settings null and no IUpdateConnectString
    | RefreshFailed                         // settings still null after the refresher's attempts
    | NullReference                         // GetDbConnection called on null connection settings
    | ProbeOverflow                         // Convert.ToInt16 of a probe result outside Int16
    | NullRegionAndPatterns                 // a target-URL rule with both lists null
}
