/**
 * The commands the `_imhex` module offers a loader script: `patch`, `add_bookmark`, `add_struct`
 * and `add_union`. The data provider and the event bus they call into are modelled by what they
 * are asked to do: the provider keeps a log of write requests, the bus a log of posted events.
 */
module ScriptHandler {
  import opened Common
  import opened PyObjects
  import opened PatternText
  import opened StructureCodegen

  const INVALID_PATCH_MESSAGE: string := "Invalid patch provided"
  const ADDRESS_OUT_OF_RANGE_MESSAGE: string := "address out of range"

  /** A region of the data: start address and size. */
  datatype Region = Region(address: u64, size: u64)

  /** A bookmark as the host receives it: its region, name and comment. */
  datatype Bookmark = Bookmark(region: Region, name: seq<char>, comment: seq<char>)

  /** The events the commands post: `Events::AddBookmark` and `Events::AppendPatternLanguageCode`. */
  datatype Event = AddBookmarkEvent(bookmark: Bookmark) | AppendPatternLanguageCode(code: string)

  /** One call of the provider's `write(address, buffer, count)`; `count` is `|bytes|`. */
  datatype WriteRequest = WriteRequest(address: u64, bytes: seq<u8>)

  /** The arguments of `patch` as parsed by format `"K|y#"`: the address and the bytes, if given. */
  datatype PatchArgs = PatchArgs(address: u64, bytes: Option<seq<u8>>)

  /**
   * The arguments of `add_bookmark` as parsed by format `"K|n|s|s"`. Every `|` moves the number of
   * required arguments up to the number of units before it, so the last one wins: the address, the
   * size and the name are required and only the comment may be left out.
   */
  datatype BookmarkArgs = BookmarkArgs(address: u64, size: u64, name: string, comment: Option<string>)

  /** `View::postEvent`: every posted event, in posting order. */
  class EventBus {
    var events: seq<Event>

    constructor ()
      ensures events == []
    {
      events := [];
    }

    method Post(e: Event)
      modifies this
      ensures events == old(events) + [e]
    {
      events := events + [e];
    }
  }

  /** The data provider: its actual size and every write request it received, in order. */
  class DataProvider {
    var actualSize: u64
    var writes: seq<WriteRequest>

    constructor (actualSize: u64)
      ensures this.actualSize == actualSize && writes == []
    {
      this.actualSize := actualSize;
      writes := [];
    }

    function GetActualSize(): u64
      reads this
    {
      actualSize
    }

    method Write(address: u64, bytes: seq<u8>)
      modifies this`writes
      ensures writes == old(writes) + [WriteRequest(address, bytes)]
    {
      writes := writes + [WriteRequest(address, bytes)];
    }

    /** Every logged write is non-empty and starts inside the data (its end may lie beyond it). */
    predicate WritesStartInside()
      reads this
    {
      forall k :: 0 <= k < |writes| ==> writes[k].address < actualSize && |writes[k].bytes| > 0
    }
  }

  /**
   * The write `patch` issues for `args` against data of `actualSize` bytes, or the exception it
   * raises: unparsable arguments, then missing or empty bytes, then a start address at or past the
   * end. Only the start address is checked, not the end of the written range.
   */
  function PatchDecision(args: Option<PatchArgs>, actualSize: u64): (r: Result<WriteRequest, PyError>)
    ensures r.Success? <==>
      args.Some? && args.value.bytes.Some? && |args.value.bytes.value| > 0 && args.value.address < actualSize
    ensures r.Success? ==> r.value == WriteRequest(args.value.address, args.value.bytes.value)
    ensures args.None? ==> r == Failure(BadArgument)
    ensures args.Some? && (args.value.bytes.None? || args.value.bytes.value == []) ==>
      r == Failure(TypeError(INVALID_PATCH_MESSAGE))
    ensures args.Some? && args.value.bytes.Some? && args.value.bytes.value != [] && args.value.address >= actualSize ==>
      r == Failure(IndexError(ADDRESS_OUT_OF_RANGE_MESSAGE))
  {
    match args
    case None => Failure(BadArgument)
    case Some(PatchArgs(address, bytes)) =>
      if bytes.None? || |bytes.value| == 0 then Failure(TypeError(INVALID_PATCH_MESSAGE))
      else if address >= actualSize then Failure(IndexError(ADDRESS_OUT_OF_RANGE_MESSAGE))
      else Success(WriteRequest(address, bytes.value))
  }

  /**
   * The bookmark `add_bookmark` posts for `args`, or the exception it raises: unparsable arguments
   * (fewer than three among them), then a missing comment (reported as an `IndexError`, as the
   * source does). A parsed name is never null, so that half of the source's test cannot fire.
   */
  function BookmarkDecision(args: Option<BookmarkArgs>): (r: Result<Bookmark, PyError>)
    ensures r.Success? <==> args.Some? && args.value.comment.Some?
    ensures r.Success? ==>
      r.value == Bookmark(Region(args.value.address, args.value.size), args.value.name, args.value.comment.value)
    ensures args.None? ==> r == Failure(BadArgument)
    ensures args.Some? && args.value.comment.None? ==>
      r == Failure(IndexError(ADDRESS_OUT_OF_RANGE_MESSAGE))
  {
    match args
    case None => Failure(BadArgument)
    case Some(BookmarkArgs(address, size, name, comment)) =>
      if comment.None? then Failure(IndexError(ADDRESS_OUT_OF_RANGE_MESSAGE))
      else Success(Bookmark(Region(address, size), name, comment.value))
  }

  /** `std::copy` into a `std::back_inserter`: appends the characters of `src` to `dst`, one by one. */
  method AppendAll(dst: seq<char>, src: seq<char>) returns (r: seq<char>)
    ensures r == dst + src
  {
    r := dst;
    var i := 0;
    while i < |src|
      invariant 0 <= i <= |src|
      invariant r == dst + src[..i]
    {
      r := r + [src[i]];
      i := i + 1;
    }
    assert src[..i] == src;
  }

  /**
   * `createStructureType`: builds the declaration text and, only once the whole text is built,
   * posts it as a single `AppendPatternLanguageCode` event. A failing call posts nothing.
   */
  method CreateStructureType(bus: EventBus, keyword: string, args: seq<TypeObject>) returns (r: Result<(), PyError>)
    requires AnnotationLoopEnds(args)
    modifies bus
    ensures var c := DeclarationCode(keyword, args);
      && bus.events == old(bus.events) + (if c.Success? then [AppendPatternLanguageCode(c.value)] else [])
      && r == Discard(c)
  {
    var code := BuildStructureCode(keyword, args);
    if code.Failure? {
      return Failure(code.error);
    }
    bus.Post(AppendPatternLanguageCode(code.value));
    r := Success(());
  }

  /** The handler's static state: the data provider of the loaded file and the host's event bus. */
  class LoaderScript {
    const provider: DataProvider
    const bus: EventBus

    constructor (provider: DataProvider, bus: EventBus)
      ensures this.provider == provider && this.bus == bus
    {
      this.provider := provider;
      this.bus := bus;
    }

    /**
     * `patch(address, bytes)`: all checks come before the one write; a rejected call writes
     * nothing. Writes that start inside the data stay the only kind the provider has received.
     */
    method AddPatch(args: Option<PatchArgs>) returns (r: Result<(), PyError>)
      modifies provider`writes
      ensures var d := PatchDecision(args, provider.actualSize);
        && provider.writes == old(provider.writes) + (if d.Success? then [d.value] else [])
        && r == Discard(d)
      ensures old(provider.WritesStartInside()) ==> provider.WritesStartInside()
    {
      if args.None? {
        return Failure(BadArgument);
      }
      var address := args.value.address;
      var patches := args.value.bytes;
      if patches.None? || |patches.value| == 0 {
        return Failure(TypeError(INVALID_PATCH_MESSAGE));
      }
      if address >= provider.GetActualSize() {
        return Failure(IndexError(ADDRESS_OUT_OF_RANGE_MESSAGE));
      }
      provider.Write(address, patches.value);
      r := Success(());
    }

    /**
     * `add_bookmark(address, size, name[, comment])`: after the checks, the name and comment are
     * appended into an empty bookmark's fields and the bookmark is posted once.
     */
    method AddBookmark(args: Option<BookmarkArgs>) returns (r: Result<(), PyError>)
      modifies bus
      ensures var d := BookmarkDecision(args);
        && bus.events == old(bus.events) + (if d.Success? then [AddBookmarkEvent(d.value)] else [])
        && r == Discard(d)
    {
      if args.None? {
        return Failure(BadArgument);
      }
      var bookmark := Bookmark(Region(args.value.address, args.value.size), [], []);
      var name := args.value.name;
      var comment := args.value.comment;
      if comment.None? {
        return Failure(IndexError(ADDRESS_OUT_OF_RANGE_MESSAGE));
      }
      var nameChars := AppendAll(bookmark.name, name);
      var commentChars := AppendAll(bookmark.comment, comment.value);
      bookmark := bookmark.(name := nameChars, comment := commentChars);
      assert bookmark == BookmarkDecision(args).value;
      bus.Post(AddBookmarkEvent(bookmark));
      r := Success(());
    }

    /** `add_struct(T)`: the generator with keyword `struct`. */
    method AddStruct(args: seq<TypeObject>) returns (r: Result<(), PyError>)
      requires AnnotationLoopEnds(args)
      modifies bus
      ensures var c := DeclarationCode("struct", args);
        && bus.events == old(bus.events) + (if c.Success? then [AppendPatternLanguageCode(c.value)] else [])
        && r == Discard(c)
    {
      r := CreateStructureType(bus, "struct", args);
    }

    /** `add_union(T)`: the generator with keyword `union`. */
    method AddUnion(args: seq<TypeObject>) returns (r: Result<(), PyError>)
      requires AnnotationLoopEnds(args)
      modifies bus
      ensures var c := DeclarationCode("union", args);
        && bus.events == old(bus.events) + (if c.Success? then [AppendPatternLanguageCode(c.value)] else [])
        && r == Discard(c)
    {
      r := CreateStructureType(bus, "union", args);
    }
  }

  /** A patch at the last address of the data is accepted; one at the size itself is out of range. */
  lemma PatchAddressBoundary(size: u64)
    requires size > 0
    ensures PatchDecision(Some(PatchArgs(size - 1, Some([1]))), size).Success?
    ensures PatchDecision(Some(PatchArgs(size, Some([1]))), size) == Failure(IndexError(ADDRESS_OUT_OF_RANGE_MESSAGE))
  {
  }

  /** Only the start address is checked: an accepted write may run past the end of the data. */
  lemma PatchMayOverrunEnd(size: u64)
    requires size > 0
    ensures var d := PatchDecision(Some(PatchArgs(size - 1, Some([1, 2]))), size);
      d.Success? && d.value.address as int + |d.value.bytes| > size as int
  {
  }

  /** The bookmark `add_bookmark(10, 4, "flag", "suspicious")` posts. */
  lemma BookmarkExample()
    ensures BookmarkDecision(Some(BookmarkArgs(10, 4, "flag", Some("suspicious"))))
      == Success(Bookmark(Region(10, 4), "flag", "suspicious"))
  {
  }
}
