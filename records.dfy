/** The rows of the three tables the backend works on, the job payload that
    travels through the queue, and the two kinds of thrown error. */
module Records {
  import opened Wrappers

  /** The three delivery states an `email_logs` row is meant to take. The
      column itself is free text: `updateLogStatus` stores whatever trimmed
      string it is given. */
  const Pending: string := "pending"
  const Sent: string := "sent"
  const Failed: string := "failed"

  /** One row of `email_logs`. The timestamps are ticks of a logical clock. */
  datatype EmailLog = EmailLog(
    id: int,
    userId: int,
    emailTo: string,
    templateId: int,
    status: string,
    errorMessage: Option<string>,
    createdAt: nat,
    updatedAt: nat)

  /** One row of `email_templates`. */
  datatype Template = Template(id: int, name: string, subject: string, body: string)

  /** One row of `users`. */
  datatype User = User(id: int, email: string, passwordHash: string, verified: bool)

  /** The payload of a `sendEmail` job. */
  datatype Job = Job(logId: int, email: string, subject: string, body: string, userId: int)

  /** A thrown error: an `AppError` carries an HTTP status code, a plain
      `Error` only a message. */
  datatype Failure =
    | AppError(message: string, statusCode: int)
    | PlainError(message: string)
  {
    /** `err.statusCode || 500`. */
    function HttpStatus(): int {
      if AppError? && statusCode != 0 then statusCode else 500
    }
  }
}
