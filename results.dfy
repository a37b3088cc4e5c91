/** Optional values and results with an error, used for the nullable fields of
    the models and for the form-validation outcomes of the views. */
module Results {

  datatype Option<+T> = None | Some(value: T)

  datatype Result<+T, +E> = Ok(value: T) | Err(error: E)
}
