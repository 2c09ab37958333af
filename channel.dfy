/**
 * The result channel of a continuous script: the `PassThrough` stream that
 * the executor creates, writes bridge calls to, and destroys.
 */
module Channel {
  import opened Base

  /** One item the bridge writes: the serialised `{ data, scriptId }` pair. */
  datatype Record = Record(data: seq<char>, scriptId: ScriptId)

  class Stream {
    /** Items written while the stream was open, in call order. */
    var items: seq<Record>
    /** `destroy()` has been called. */
    var destroyed: bool
    /** Script ids whose `stopScript` the 'end' listeners call. */
    var endListeners: seq<ScriptId>
    /** Script ids whose `stopScript` the 'close' listeners call. */
    var closeListeners: seq<ScriptId>

    constructor ()
      ensures items == [] && !destroyed
      ensures endListeners == [] && closeListeners == []
    {
      items := [];
      destroyed := false;
      endListeners := [];
      closeListeners := [];
    }

    /** `write`: a destroyed stream drops the item. */
    method Write(r: Record)
      modifies this
      ensures items == if old(destroyed) then old(items) else old(items) + [r]
      ensures destroyed == old(destroyed)
      ensures endListeners == old(endListeners) && closeListeners == old(closeListeners)
    {
      if !destroyed {
        items := items + [r];
      }
    }

    /**
     * `destroy`: closes the stream for good; a second call changes nothing.
     * `items` is the log of writes, which destroying keeps; records no
     * consumer has read yet are lost to readers.
     */
    method Destroy()
      modifies this
      ensures destroyed
      ensures items == old(items)
      ensures endListeners == old(endListeners) && closeListeners == old(closeListeners)
    {
      destroyed := true;
    }

    /** `on('end', …)` and `on('close', …)` with listeners that stop script `id`. */
    method StopOnEndAndClose(id: ScriptId)
      modifies this
      ensures endListeners == old(endListeners) + [id]
      ensures closeListeners == old(closeListeners) + [id]
      ensures items == old(items) && destroyed == old(destroyed)
    {
      endListeners := endListeners + [id];
      closeListeners := closeListeners + [id];
    }
  }
}
