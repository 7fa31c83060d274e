/** Outcome types shared by the model: an optional value, and a result that
    either carries a value or names the failure the Python code raises. */
module Results {

  datatype Option<+T> = None | Some(value: T)

  /** The failures the backend can raise. In the source they are all Python
      exceptions (mostly ValueError); the model keeps only which check fired. */
  datatype Error =
    | MissingCredential(variable: string)  // constructor: key absent or empty
    | BadStatus(code: int)                 // any HTTP status other than 200
    | NoUploadUrl                          // upload start reply lacks X-Goog-Upload-URL
    | NoFileUri                            // upload finalize reply lacks file.uri
    | MissingText                          // reply body lacks the text field (KeyError/IndexError)
    | UnexpectedAnswer                     // hazard answer neither "yes" nor "no"
    | TransportFailure                     // httpx raised: timeout or connection error
    | BlankPrompt                          // prompt file blank after strip()

  datatype Result<+T> = Ok(value: T) | Err(error: Error)
}
