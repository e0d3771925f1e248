/** The optional values the bot's dictionaries hold (a key that may be None). */
module Options {
  datatype Option<+T> = None | Some(value: T)
}
