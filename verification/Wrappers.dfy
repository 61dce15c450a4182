/** Optional values and the two ways an operation of the repository can end. */
module Wrappers {

  datatype Option<+T> = None | Some(value: T)

  datatype Result<+T, +E> = Ok(value: T) | Err(error: E)
}

/** The configuration errors of the estimator crate. */
module VpinErrors {

  datatype VpinError =
    | InvalidBucketVolume(volume: real)
    | InvalidWindow(got: nat, min: nat)
    | InvalidConfidenceLevel(level: real)
    | InvalidBootstrapSamples(samples: nat, minSamples: nat)
}
