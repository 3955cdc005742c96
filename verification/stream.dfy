/** The `FILE*` the generator writes to, opened with mode "w": a text
    buffer that grows at its end. */
module Stream {

  class OutFile {
    /** Everything written so far. */
    var text: string

    /** `fopen(path, "w")`: the file starts empty. */
    constructor()
      ensures text == ""
    {
      text := "";
    }

    /** `fwrite` / `fprintf` at the end of the file. */
    method Write(s: string)
      modifies this
      ensures text == old(text) + s
    {
      text := text + s;
    }

    /** `fseek(file, -1, SEEK_CUR)` followed by a write: the last character
        written is replaced by the start of s. */
    method BackUpAndWrite(s: string)
      requires |text| > 0 && |s| > 0
      modifies this
      ensures text == old(text)[..|old(text)| - 1] + s
      ensures |text| == |old(text)| - 1 + |s|
    {
      text := text[..|text| - 1] + s;
    }
  }
}
