/** The values that the session store, the user_sessions table and the question bank hold. */
module StudyTypes {
  import opened Wrappers

  // uuid4 values, Supabase user ids and SHA-256 digests, as the numbers they are.
  type SessionId = nat
  type UserId = nat
  type Hash = nat

  /** An uploaded PDF after parsing: its hash and whether any text came out. */
  datatype Document = Document(hash: Hash, hasText: bool)

  /** A generated StudyContent: the document it was generated from and what the model answered. */
  datatype Content = Content(source: Document, answer: nat)

  /** The result_json field: empty, the parsed upload parked there, or a finished StudyContent. */
  datatype Payload = Nothing | Parsed(doc: Document) | Study(content: Content)

  datatype Status = Uploaded | Processing | Complete | Failed

  datatype Record = Record(user: Option<UserId>, hash: Hash, status: Status, progress: nat, payload: Payload)

  datatype RowStatus = PENDING | READY | FAILED

  datatype Meta = Meta(name: string, subject: Option<nat>, pages: nat, words: nat)

  datatype Row = Row(user: UserId, hash: Option<Hash>, status: RowStatus, meta: Meta)

  /** How one database statement goes: done, never applied, or applied with the answer lost. */
  datatype Fault = Up | Lost | Late
}
