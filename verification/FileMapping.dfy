/** Reading a file through one sliding memory-mapped window. The file does not change meanwhile. */
module FileMapping {
  import opened Arithmetic
  import opened Bytes

  /** Size of a window, unless a request needs more or the file ends. */
  const CAPACITY: nat := 4 * 1024 * 1024

  /** The mapped part of the file. */
  datatype Window = Window(start: nat, size: nat)

  predicate Covers(w: Option<Window>, offset: nat, length: nat) {
    w.Some? && w.value.start <= offset && offset + length <= w.value.start + w.value.size
  }

  function PageStart(page: nat, k: nat): nat { k * page }

  ghost predicate Aligned(page: nat, offset: nat) { exists k: nat :: offset == PageStart(page, k) }

  function AlignedStart(page: nat, offset: nat): (start: nat)
    requires page > 0
    ensures start <= offset < start + page && Aligned(page, start)
  {
    assert PageStart(page, offset / page) <= offset;
    PageStart(page, offset / page)
  }

  /** The window that is mapped for a request. */
  function NewWindow(total: nat, page: nat, offset: nat, length: nat): (w: Window)
    requires page > 0 && offset + length <= total
    ensures Aligned(page, w.start) && w.start <= offset && offset + length <= w.start + w.size <= total
    ensures offset < w.start + page && (w.start + w.size == total || w.size >= CAPACITY)
  {
    var start := AlignedStart(page, offset);
    Window(start, Min(Max(CAPACITY, length + (offset - start)), total - start))
  }

  /** A window is larger than the capacity exactly when the request, from its page on, is. */
  lemma LargerThanCapacityIff(total: nat, page: nat, offset: nat, length: nat)
    requires page > 0 && offset + length <= total
    ensures NewWindow(total, page, offset, length).size > CAPACITY <==> length + offset % page > CAPACITY
  {
    var start := AlignedStart(page, offset);
    assert offset == page * (offset / page) + offset % page;
    assert offset - start == offset % page;
  }

  /** It happens: asking for all of a file that is larger maps all of it. */
  lemma WholeFileExceedsCapacity(total: nat, page: nat)
    requires page > 0 && total > CAPACITY
    ensures NewWindow(total, page, 0, total) == Window(0, total)
  {
    assert AlignedStart(page, 0) == 0;
  }

  class Mapping {
    const file: seq<byte>
    const page: nat
    var window: Option<Window>
    /** The bytes of the window. */
    var view: seq<byte>

    /** The window lies inside the file, page aligned, and shows what the file holds there. */
    ghost predicate Valid() reads this {
      && page > 0
      && (window.Some? ==>
            var w := window.value;
            Aligned(page, w.start) && w.start + w.size <= |file| && view == file[w.start..w.start + w.size])
    }

    /** An empty file has nothing to map and counts as not opened. */
    predicate Opened() { |file| > 0 }

    constructor (file: seq<byte>, page: nat)
      requires page > 0
      ensures Valid() && this.file == file && this.page == page && window == None
    {
      this.file, this.page := file, page;
      window, view := None, [];
    }

    /** The system may refuse a mapping, and refuses empty ones. */
    method Remap(start: nat, size: nat, granted: bool) returns (ok: bool)
      requires Valid() && Aligned(page, start) && start + size <= |file|
      modifies this
      ensures Valid() && ok == (granted && size > 0)
      ensures window == (if ok then Some(Window(start, size)) else old(window)) && (!ok ==> view == old(view))
    {
      if !granted || size == 0 { return false; }
      window := Some(Window(start, size));
      view := file[start..start + size];
      ok := true;
    }

    /** Gives exactly the bytes of the file at `offset`, remapping only when the window does not
        cover them. */
    method EnsureWindow(offset: int, length: int, granted: bool) returns (r: Option<seq<byte>>)
      requires Valid()
      modifies this
      ensures Valid()
      ensures r.Some? ==> 0 <= offset && 0 <= length && offset + length <= |file|
      ensures r.Some? ==> r.value == file[offset..offset + length]
      ensures r.Some? <==> Opened() && offset >= 0 && length >= 0 && offset + length <= |file|
                           && (old(Covers(window, offset, length))
                               || (granted && NewWindow(|file|, page, offset, length).size > 0))
      ensures window == if r.None? || old(Covers(window, offset, length)) then old(window)
                        else Some(NewWindow(|file|, page, offset, length))
    {
      if !Opened() || offset < 0 || length < 0 || offset + length > |file| { return None; }
      if !Covers(window, offset, length) {
        var start := AlignedStart(page, offset);
        var size := Min(Max(CAPACITY, length + (offset - start)), |file| - start);
        var ok := Remap(start, size, granted);
        if !ok { return None; }
      }
      var at := offset - window.value.start;
      SliceOfSlice(file, window.value.start, window.value.start + window.value.size, at, at + length);
      r := Some(view[at..at + length]);
    }
  }

  // ---------------------------------------------------------------- the stream over it

  datatype Origin = FromBegin | FromCurrent | FromEnd

  function Base(origin: Origin, position: nat, total: nat): nat {
    match origin
    case FromBegin => 0
    case FromCurrent => position
    case FromEnd => total
  }

  /** What one flat byte array would return. */
  function Slice(file: seq<byte>, position: nat, n: nat): seq<byte> {
    if position >= |file| then [] else file[position..Min(position + n, |file|)]
  }

  class FileStream {
    const file: seq<byte>
    const readOnly: bool
    const mapping: Mapping
    /** Position of the underlying stdio stream. */
    var cursor: nat
    var attempted: bool
    var mapped: bool
    var mappedPosition: nat

    ghost predicate Valid() reads this, mapping {
      && mapping.Valid() && mapping.file == file
      && (mapped ==> attempted && readOnly && mapping.Opened())
    }

    /** The position a reader sees. */
    ghost function Position(): nat reads this { if mapped then mappedPosition else cursor }

    constructor (file: seq<byte>, page: nat, readOnly: bool)
      requires page > 0
      ensures Valid() && fresh(mapping) && this.file == file && this.readOnly == readOnly && Position() == 0
    {
      this.file, this.readOnly := file, readOnly;
      mapping := new Mapping(file, page);
      cursor, attempted, mapped, mappedPosition := 0, false, false, 0;
    }

    /** A seek into the file behaves alike mapped and unmapped; beyond the end only stdio follows. */
    method Seek(offset: int, origin: Origin) returns (r: int)
      requires Valid()
      modifies this`cursor, this`mappedPosition
      ensures Valid()
      ensures var target := Base(origin, old(Position()), |file|) + offset;
              if target < 0 || (mapped && target > |file|) then r == -1 && Position() == old(Position())
              else r == target && Position() == target
    {
      if mapped {
        var target := Base(origin, mappedPosition, |file|) + offset;
        if target < 0 || target > |file| { return -1; }
        mappedPosition := target;
        return target;
      }
      var target := Base(origin, cursor, |file|) + offset;
      if target < 0 { return -1; }
      cursor := target;
      r := target;
    }

    /** Reads as from one flat byte array, also after seeks made before mapping; `mappable` tells
        whether the file could be opened for mapping, `granted` whether a window could be mapped. */
    method Read(n: nat, mappable: bool, granted: bool) returns (bytes: seq<byte>)
      requires Valid()
      modifies this, mapping
      ensures Valid()
      ensures Position() == old(Position()) + |bytes|
      ensures bytes == Slice(file, old(Position()), n) || (bytes == [] && mapped && !granted)
      ensures granted ==> bytes == Slice(file, old(Position()), n)
      ensures granted && mapped ==>
                mapping.window == AfterRead(|file|, mapping.page, old(mapping.window), old(Position()), n)
                && |bytes| == Want(|file|, old(Position()), n)
    {
      if !attempted {
        attempted := true;
        if readOnly && |file| > 0 && mappable {
          mapped := true;
          mappedPosition := cursor;
        }
      }
      if mapped {
        bytes := ReadMapped(n, granted);
        return;
      }
      bytes := Slice(file, cursor, n);
      cursor := cursor + |bytes|;
    }

    method ReadMapped(n: nat, granted: bool) returns (bytes: seq<byte>)
      requires Valid() && mapped
      modifies this`mappedPosition, mapping
      ensures Valid() && mappedPosition == old(mappedPosition) + |bytes|
      ensures bytes == Slice(file, old(mappedPosition), n) || (bytes == [] && !granted)
      ensures granted ==>
                mapping.window == AfterRead(|file|, mapping.page, old(mapping.window), old(mappedPosition), n)
                && |bytes| == Want(|file|, old(mappedPosition), n)
    {
      if mappedPosition >= |file| { return []; }
      var want := Min(|file| - mappedPosition, n);
      var src := mapping.EnsureWindow(mappedPosition, want, granted);
      if src.None? { return []; }
      mappedPosition := mappedPosition + want;
      bytes := src.value;
    }
  }

  // ---------------------------------------------------------------- how often it remaps

  /** Bytes a read of up to `n` returns. */
  function Want(total: nat, position: nat, n: nat): nat { if position >= total then 0 else Min(total - position, n) }

  function AfterRead(total: nat, page: nat, w: Option<Window>, position: nat, n: nat): Option<Window>
    requires page > 0
  {
    if position >= total || Covers(w, position, Want(total, position, n)) then w
    else Some(NewWindow(total, page, position, Want(total, position, n)))
  }

  /** Number of remaps of sequential reads of the given sizes. */
  function Remaps(total: nat, page: nat, w: Option<Window>, position: nat, sizes: seq<nat>): nat
    requires page > 0
    decreases |sizes|
  {
    if sizes == [] then 0
    else
      var want := Want(total, position, sizes[0]);
      (if position >= total || Covers(w, position, want) then 0 else 1)
      + Remaps(total, page, AfterRead(total, page, w, position, sizes[0]), position + want, sizes[1..])
  }

  function BytesRead(total: nat, position: nat, sizes: seq<nat>): nat
    decreases |sizes|
  {
    if sizes == [] then 0
    else Want(total, position, sizes[0]) + BytesRead(total, position + Want(total, position, sizes[0]), sizes[1..])
  }

  /** A window mapped at `from` serves any read until the position has moved a step's worth. */
  ghost predicate MappedAt(total: nat, page: nat, w: Window, from: nat) {
    w.start <= from < w.start + page && (w.start + w.size == total || w.size >= CAPACITY)
  }

  predicate SizesUpTo(sizes: seq<nat>, n: nat) { forall i :: 0 <= i < |sizes| ==> sizes[i] <= n }

  /** If the window does not serve the next read, the position has moved that far. */
  lemma RemapNeedsProgress(total: nat, page: nat, w: Window, from: nat, position: nat, n: nat)
    requires page > 0 && page + n < CAPACITY && MappedAt(total, page, w, from) && from <= position < total
    requires !Covers(Some(w), position, Want(total, position, n))
    ensures from + (CAPACITY - page - n) <= position
  {
  }

  lemma {:induction false} RemapsAfter(total: nat, page: nat, w: Window, from: nat, position: nat, sizes: seq<nat>,
                                       n: nat, step: nat)
    requires page > 0 && SizesUpTo(sizes, n) && page + n + step == CAPACITY && step > 0
    requires MappedAt(total, page, w, from) && from <= position
    ensures Remaps(total, page, Some(w), position, sizes) * step <= position - from + BytesRead(total, position, sizes)
    decreases |sizes|
  {
    if sizes == [] {
    } else {
      var want := Want(total, position, sizes[0]);
      var rest := sizes[1..];
      if position >= total || Covers(Some(w), position, want) {
        RemapsAfter(total, page, w, from, position + want, rest, n, step);
      } else {
        RemapNeedsProgress(total, page, w, from, position, sizes[0]);
        var w' := NewWindow(total, page, position, want);
        RemapsAfter(total, page, w', position, position + want, rest, n, step);
        OneMore(Remaps(total, page, Some(w'), position + want, rest), step);
      }
    }
  }

  lemma OneMore(k: nat, step: nat)
    ensures (1 + k) * step == step + k * step
  {
  }

  lemma {:induction false} RemapsFromAnyWindow(total: nat, page: nat, w: Option<Window>, position: nat,
                                               sizes: seq<nat>, n: nat, step: nat)
    requires page > 0 && SizesUpTo(sizes, n) && page + n + step == CAPACITY && step > 0
    ensures var r := Remaps(total, page, w, position, sizes);
            r > 0 ==> (r - 1) * step <= BytesRead(total, position, sizes)
    decreases |sizes|
  {
    if sizes == [] {
    } else {
      var want := Want(total, position, sizes[0]);
      if position >= total || Covers(w, position, want) {
        RemapsFromAnyWindow(total, page, w, position + want, sizes[1..], n, step);
      } else {
        FirstRemap(total, page, w, position, sizes, n, step);
      }
    }
  }

  lemma FirstRemap(total: nat, page: nat, w: Option<Window>, position: nat, sizes: seq<nat>, n: nat, step: nat)
    requires page > 0 && SizesUpTo(sizes, n) && page + n + step == CAPACITY && step > 0 && sizes != []
    requires position < total && !Covers(w, position, Want(total, position, sizes[0]))
    ensures var r := Remaps(total, page, w, position, sizes);
            r > 0 && (r - 1) * step <= BytesRead(total, position, sizes)
  {
    var want := Want(total, position, sizes[0]);
    var w' := NewWindow(total, page, position, want);
    RemapsAfter(total, page, w', position, position + want, sizes[1..], n, step);
    var r := Remaps(total, page, Some(w'), position + want, sizes[1..]);
    assert Remaps(total, page, w, position, sizes) == 1 + r;
  }

  /** Reading sequentially in pieces of at most `n` remaps at most once per `step` bytes, plus once,
      whatever was mapped before. */
  lemma SequentialRemapBound(total: nat, page: nat, w: Option<Window>, position: nat, sizes: seq<nat>, n: nat,
                             step: nat)
    requires page > 0 && SizesUpTo(sizes, n) && page + n + step == CAPACITY && step > 0
    ensures Remaps(total, page, w, position, sizes) <= 1 + BytesRead(total, position, sizes) / step
  {
    RemapsFromAnyWindow(total, page, w, position, sizes, n, step);
    QuotientBound(Remaps(total, page, w, position, sizes), step, BytesRead(total, position, sizes));
  }

  lemma QuotientBound(r: nat, step: nat, bytes: nat)
    requires step > 0 && (r > 0 ==> (r - 1) * step <= bytes)
    ensures r <= 1 + bytes / step
  {
    if r > 0 {
      var q: nat := r - 1;
      DivBound(q, step, bytes);
    }
  }

  lemma DivBound(q: nat, d: nat, x: nat)
    requires d > 0 && q * d <= x
    ensures q <= x / d
  {
    var r := x / d;
    assert (r + 1) * d == r * d + d;
    if q > r {
      MulMonotone(r + 1, q, d);
      assert false;
    }
  }
}
