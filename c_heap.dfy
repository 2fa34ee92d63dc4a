/**
 * The heap objects the C structs point to: NUL-terminated strings, the opaque `Obj` and `Node`
 * records and connection lambdas. Only their addresses (and a string's characters) matter here.
 */
module CHeap {
  /** A `char *` buffer; `text` is its content up to the terminating NUL. */
  class CString {
    const text: string

    constructor(text: string)
      ensures this.text == text
    {
      this.text := text;
    }
  }

  /** An `Obj *`, compared by address only. */
  class Obj {
    constructor()
    {
    }
  }

  /** A `Node *`; node.c is not part of this model, so nodes are compared by address only. */
  class Node {
    constructor()
    {
    }
  }

  /** A `void (*)(void)` connection lambda. */
  class Lambda {
    constructor()
    {
    }
  }
}
