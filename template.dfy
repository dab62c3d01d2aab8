/**
 * The parts of the template package that the formatter uses: the five reply
 * actions it names, and the templates builder it clones into each reply.
 */
module Template {

  /**
   * A reply action. The five named tags are the package's action constants
   * (`template.Handshake`, `template.UnknownCommand`, `template.Unauthorized`,
   * `template.Failure`, `template.Success`); `Other(name)` stands for any
   * other action string.
   */
  datatype Action =
    | Handshake
    | UnknownCommand
    | Unauthorized
    | Failure
    | Success
    | Other(name: string)

  /**
   * A templates builder, known only by the messages it was built with.
   * Cloning a builder yields an equal value.
   */
  datatype Templates = Templates(messages: map<string, seq<string>>)
}
