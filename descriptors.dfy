/**
 * The part of the descriptor library's interface that the engine uses: a
 * compiled file descriptor with its declared package and its table of
 * message descriptors, and the lookup of a message by fully-qualified name.
 * How descriptors are compiled from schema text is not part of this model.
 */
module Descriptors {
  import opened Wrappers

  /** A compiled message: its simple name and its fully-qualified name. */
  datatype MessageDescriptor = MessageDescriptor(name: string, fullName: string)

  /**
   * A compiled schema file: its declared package ("" when the file declares
   * none) and the messages it declares, top-level and nested, keyed by
   * fully-qualified name.
   */
  datatype FileDescriptor = FileDescriptor(package: string, messages: map<string, MessageDescriptor>)

  /** The separator between package, enclosing messages and a message name. */
  const NameSeparator: string := "."

  /** The descriptor library's message lookup: a miss is the nil descriptor. */
  function FindMessage(fd: FileDescriptor, fullName: string): Option<MessageDescriptor>
  {
    if fullName in fd.messages then Some(fd.messages[fullName]) else None
  }

  /**
   * The fully-qualified name of `name` inside package `pkg`, as the schema
   * language defines it: the package, a separator and the name, except that a
   * file without a package puts its messages at the root, with no leading
   * separator.
   */
  function FullName(pkg: string, name: string): string
  {
    if pkg == "" then name else pkg + NameSeparator + name
  }

  /**
   * The descriptor library's invariant for a compiled file: every message is
   * stored under its own fully-qualified name, and a fully-qualified name
   * never starts with the separator.
   */
  predicate StoredUnderFullNames(fd: FileDescriptor) {
    forall key :: key in fd.messages ==>
      fd.messages[key].fullName == key && |key| > 0 && key[0] != NameSeparator[0]
  }

  /** `fd` declares a message whose name relative to its package is `name`. */
  predicate Declares(fd: FileDescriptor, name: string) {
    FullName(fd.package, name) in fd.messages
  }
}
