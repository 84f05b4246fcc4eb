/** Outcomes of the service operations: a value, or the exception the Java code throws. */
module Results {

  datatype Option<+T> = None | Some(value: T)

  /** The `BaseResponseStatus` codes that the modelled services raise in a `BaseException`. */
  datatype BaseResponseStatus =
    | NotificationNotFound
    | UnauthorizedReadNotification
    | UnauthorizedDeleteNotification
    | ReadNotificationListNotFound
    | NotificationSendFailed
    | EmailSendFailed
    | FundingNotFound
    | UnauthorizedFinishedFunding
    | UnauthorizedUpdateFunding
    | UnauthorizedDeleteFunding

  /** The exceptions that end a modelled operation. */
  datatype Failure =
    | Base(status: BaseResponseStatus)   // BaseException(status)
    | UsernameNotFound                   // UsernameNotFoundException
    | IllegalState                       // IllegalStateException
    | NullPointer                        // NullPointerException
    | NumberFormat                       // NumberFormatException
    | IOFailure                          // IOException
    | IncorrectResultSize                // Spring Data: a single-result query matched several rows

  datatype Result<+T> = Ok(value: T) | Err(error: Failure)
}
