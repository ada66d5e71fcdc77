/** A growing string, as `&mut String` is used by the text producers. */
module TextBuffers {
  class TextBuffer {
    var text: string

    constructor (initial: string)
      ensures text == initial
    {
      text := initial;
    }

    method Push(c: char)
      modifies this
      ensures text == old(text) + [c]
    {
      text := text + [c];
    }

    method PushStr(s: string)
      modifies this
      ensures text == old(text) + s
    {
      text := text + s;
    }
  }
}
