/** The host-side bookkeeping of the renderer in base/d3d12_base.cpp: the ledger of
    command-list submissions on the graphics queue and its fence counter, the
    presentation state of the film (swap chain, back-buffer index, dimension), the
    row-pitched texture upload and the index count of a loaded mesh. Direct3D calls
    are abstract: what the device answers reaches the model as a parameter, and the
    one device state the host reads, the completed value of the queue's fence, is a
    field advanced only by explicit completion steps. */
module D3D12Base {
  import opened Wrappers
  import opened Device
  import opened Arith
  import opened CoreFormats
  import opened D3D12Utils
  import opened Utils
  import opened ObjScan
  import opened ObjMesh
  import Heap

  /** The exceptions the modelled functions throw. */
  datatype D3D12Error =
    | CantCreateCommandAllocator
    | CantCreateCommandList
    | CantResizeSwapChain
    | CantCreateSwapChain
    | CantCreateViews

  // ---------------------------------------------------------------------------------
  // The submission ledger

  /** `CommandListSubmission`: a command allocator, the command list recorded with it,
      and the fence value that marks the end of its execution on the GPU (0 while it
      is being recorded). */
  datatype CommandListSubmission = CommandListSubmission(allocator: Handle, list: Handle, fence: nat)

  /** The shape of `runningCL` that submitting keeps: fences strictly increase from
      front to back, none is beyond `fenceValue`, and the back one is `fenceValue`. */
  ghost predicate LedgerOrdered(ledger: seq<CommandListSubmission>, fenceValue: nat) {
    (forall i, j | 0 <= i < j < |ledger| :: ledger[i].fence < ledger[j].fence) &&
    (forall i | 0 <= i < |ledger| :: ledger[i].fence <= fenceValue) &&
    (ledger != [] ==> ledger[|ledger| - 1].fence == fenceValue)
  }

  /** The front submission may be reused: the GPU has passed its fence. This is the
      negation of the test that makes `GetAvailableCommandListSubmission` create a
      new pair. */
  predicate Reusable(ledger: seq<CommandListSubmission>, completed: nat) {
    ledger != [] && ledger[0].fence <= completed
  }

  /** In an ordered ledger the front has the smallest fence, so looking at the front
      alone misses no finished submission: some entry is finished exactly when the
      front is. */
  lemma FrontDecides(ledger: seq<CommandListSubmission>, fenceValue: nat, completed: nat)
    requires LedgerOrdered(ledger, fenceValue)
    ensures Reusable(ledger, completed) <==> exists i | 0 <= i < |ledger| :: ledger[i].fence <= completed
  {
    if exists i | 0 <= i < |ledger| :: ledger[i].fence <= completed {
      var i :| 0 <= i < |ledger| && ledger[i].fence <= completed;
      if i > 0 {
        assert ledger[0].fence < ledger[i].fence;
      }
    }
  }

  /** Popping the front keeps the ledger ordered. */
  lemma PopKeepsOrder(ledger: seq<CommandListSubmission>, fenceValue: nat)
    requires LedgerOrdered(ledger, fenceValue) && ledger != []
    ensures LedgerOrdered(ledger[1..], fenceValue)
  {
    var rest := ledger[1..];
    forall i, j | 0 <= i < j < |rest| ensures rest[i].fence < rest[j].fence {
      assert rest[i] == ledger[i + 1] && rest[j] == ledger[j + 1];
    }
  }

  /** Stamping a submission with the next fence value and pushing it at the back keeps
      the ledger ordered under the incremented counter. */
  lemma PushKeepsOrder(ledger: seq<CommandListSubmission>, fenceValue: nat, s: CommandListSubmission)
    requires LedgerOrdered(ledger, fenceValue)
    requires s.fence == fenceValue + 1
    ensures LedgerOrdered(ledger + [s], fenceValue + 1)
  {
    var pushed := ledger + [s];
    forall i, j | 0 <= i < j < |pushed| ensures pushed[i].fence < pushed[j].fence {
      if j < |ledger| {
        assert pushed[i] == ledger[i] && pushed[j] == ledger[j];
      } else {
        assert pushed[i] == ledger[i];
      }
    }
  }

  /** Once the GPU has reached `fenceValue`, every submission of an ordered ledger is
      finished, so releasing them frees nothing the GPU still uses. */
  lemma SettledLedger(ledger: seq<CommandListSubmission>, fenceValue: nat, completed: nat)
    requires LedgerOrdered(ledger, fenceValue) && fenceValue <= completed
    ensures forall i | 0 <= i < |ledger| :: ledger[i].fence <= completed
    ensures ledger != [] ==> Reusable(ledger, completed)
  {
  }

  /** The objects `DestroyGlobalObjects` releases, in order: for each submission from
      front to back, its command list, then its allocator. */
  function ReleaseOrder(ledger: seq<CommandListSubmission>): seq<Handle> {
    if ledger == [] then [] else [ledger[0].list, ledger[0].allocator] + ReleaseOrder(ledger[1..])
  }

  /** Submission `i` has its list released at step `2 i` and its allocator at step
      `2 i + 1`: every object of the ledger is released, each once per entry. */
  lemma {:induction false} ReleaseOrderAt(ledger: seq<CommandListSubmission>, i: nat)
    requires i < |ledger|
    ensures |ReleaseOrder(ledger)| == 2 * |ledger|
    ensures ReleaseOrder(ledger)[2 * i] == ledger[i].list
    ensures ReleaseOrder(ledger)[2 * i + 1] == ledger[i].allocator
    decreases |ledger|
  {
    if i > 0 {
      ReleaseOrderAt(ledger[1..], i - 1);
    } else if |ledger| > 1 {
      ReleaseOrderAt(ledger[1..], 0);
    }
  }

  /** `CommandQueueData` for the graphics queue: the last fence value signalled, the
      FIFO `runningCL` of submitted command lists, and the completed value of the
      queue's fence as the device reports it (`GetCompletedValue`). */
  class CommandQueueData {
    var fenceValue: nat
    var runningCL: seq<CommandListSubmission>
    var completedValue: nat

    ghost predicate Valid()
      reads this
    {
      LedgerOrdered(runningCL, fenceValue) && completedValue <= fenceValue
    }

    /** A fresh queue: the fence is created with the initial value 0 and nothing has
        been submitted. */
    constructor ()
      ensures Valid()
      ensures fenceValue == 0 && runningCL == [] && completedValue == 0
    {
      fenceValue := 0;
      runningCL := [];
      completedValue := 0;
    }

    /** The GPU reaches fence value `v`: the completed value is monotone and never
        passes the last value signalled. */
    method Complete(v: nat)
      requires Valid()
      requires completedValue <= v <= fenceValue
      modifies this`completedValue
      ensures Valid()
      ensures completedValue == v
    {
      completedValue := v;
    }

    /** `SetEventOnCompletion(fenceValue)` followed by an unbounded wait: the call
        returns once the GPU has executed everything submitted. */
    method WaitForFence()
      requires Valid()
      modifies this`completedValue
      ensures Valid()
      ensures completedValue == fenceValue
    {
      completedValue := fenceValue;
    }

    /** `GetAvailableCommandListSubmission(D3D12_COMMAND_LIST_TYPE_DIRECT)`. When the
        ledger is empty or its front is still in flight, a new allocator and list are
        created (the device's answers are `allocatorReply` and `listReply`) and the
        ledger is left alone; otherwise the front is popped, its allocator is reset
        and paired with a new list. The pair is handed out with fence 0. */
    method GetAvailableCommandListSubmission(allocatorReply: Creation, listReply: Creation)
      returns (r: Result<CommandListSubmission, D3D12Error>)
      requires Valid()
      modifies this`runningCL
      ensures Valid()
      ensures !Reusable(old(runningCL), completedValue) ==>
                runningCL == old(runningCL) &&
                r == (if allocatorReply.CreationFailed? then Failure(CantCreateCommandAllocator)
                      else if listReply.CreationFailed? then Failure(CantCreateCommandList)
                      else Success(CommandListSubmission(allocatorReply.handle, listReply.handle, 0)))
      ensures Reusable(old(runningCL), completedValue) ==>
                runningCL == old(runningCL)[1..] &&
                r == (if listReply.CreationFailed? then Failure(CantCreateCommandList)
                      else Success(CommandListSubmission(old(runningCL)[0].allocator, listReply.handle, 0)))
    {
      if runningCL == [] || runningCL[0].fence > completedValue {
        if allocatorReply.CreationFailed? {
          return Failure(CantCreateCommandAllocator);
        }
        if listReply.CreationFailed? {
          return Failure(CantCreateCommandList);
        }
        return Success(CommandListSubmission(allocatorReply.handle, listReply.handle, 0));
      }
      var cl := runningCL[0];
      PopKeepsOrder(runningCL, fenceValue);
      runningCL := runningCL[1..];
      if listReply.CreationFailed? {
        return Failure(CantCreateCommandList);
      }
      r := Success(cl.(list := listReply.handle, fence := 0));
    }

    /** `SubmitCL`: execute the list, signal the next fence value, stamp the submission
        with it and push it at the back of the ledger. */
    method SubmitCL(submission: CommandListSubmission) returns (stamped: CommandListSubmission)
      requires Valid()
      modifies this`fenceValue, this`runningCL
      ensures Valid()
      ensures fenceValue == old(fenceValue) + 1
      ensures stamped == submission.(fence := fenceValue)
      ensures runningCL == old(runningCL) + [stamped]
    {
      stamped := submission.(fence := fenceValue + 1);
      PushKeepsOrder(runningCL, fenceValue, stamped);
      fenceValue := fenceValue + 1;
      runningCL := runningCL + [stamped];
    }

    /** The loop of `DestroyGlobalObjects`: release the front's list and allocator and
        pop it, until the ledger is empty. Returns the objects released, in order. */
    method DestroyGlobalObjects() returns (released: seq<Handle>)
      requires Valid()
      modifies this`runningCL
      ensures Valid()
      ensures runningCL == []
      ensures released == ReleaseOrder(old(runningCL))
    {
      released := [];
      while runningCL != []
        invariant Valid()
        invariant released + ReleaseOrder(runningCL) == ReleaseOrder(old(runningCL))
        decreases |runningCL|
      {
        released := released + [runningCL[0].list, runningCL[0].allocator];
        PopKeepsOrder(runningCL, fenceValue);
        runningCL := runningCL[1..];
      }
    }

    /** The end of `wWinMain`: wait for the GPU to finish, then drain the ledger. Every
        submission released has finished executing. */
    method Shutdown() returns (released: seq<Handle>)
      requires Valid()
      modifies this`completedValue, this`runningCL
      ensures Valid()
      ensures completedValue == fenceValue && runningCL == []
      ensures released == ReleaseOrder(old(runningCL))
      ensures forall i | 0 <= i < |old(runningCL)| :: old(runningCL)[i].fence <= completedValue
    {
      WaitForFence();
      SettledLedger(runningCL, fenceValue, completedValue);
      released := DestroyGlobalObjects();
    }
  }

  // ---------------------------------------------------------------------------------
  // Presentation

  /** `Scene::SWAP_CHAIN_SIZE`: the swap chain has two back buffers. */
  const SWAP_CHAIN_SIZE: nat := 2

  /** `glm::ivec2`. */
  datatype Dimension = Dimension(x: int, y: int)

  /** The back buffer rendered after back buffer `i`. */
  function NextRTVIndex(i: nat): (next: nat)
    requires i < SWAP_CHAIN_SIZE
    ensures next < SWAP_CHAIN_SIZE && next != i
  {
    (i + 1) % 2
  }

  /** Two presents bring the index back: the frames alternate between the buffers. */
  lemma RTVIndexAlternates(i: nat)
    requires i < SWAP_CHAIN_SIZE
    ensures NextRTVIndex(NextRTVIndex(i)) == i
  {
  }

  /** `Film`: the window's dimension, the swap chain (`nullptr` until the first
      resize) and the index of the back buffer the next frame renders to. */
  datatype Film = Film(dimension: Dimension, swapChain: Option<Handle>, currentRTVIndex: nat)

  /** `Direct3D12Integrator`, for the parts the frame loop reads and updates: whether
      the device exists, the graphics queue and the film. */
  class Direct3D12Integrator {
    const device: Option<Handle>
    const gfxCommandQueue: CommandQueueData
    var film: Film

    ghost predicate Valid()
      reads this, gfxCommandQueue
    {
      gfxCommandQueue.Valid() && film.currentRTVIndex < SWAP_CHAIN_SIZE
    }

    /** The integrator as `wWinMain` sets it up: the film has the initial dimension, no
        swap chain and back buffer 0; `device` is what device creation in `InitD3D12`
        yielded. */
    constructor (device: Option<Handle>, dimension: Dimension)
      ensures Valid() && fresh(gfxCommandQueue)
      ensures this.device == device
      ensures film == Film(dimension, None, 0)
      ensures gfxCommandQueue.fenceValue == 0 && gfxCommandQueue.runningCL == []
    {
      this.device := device;
      gfxCommandQueue := new CommandQueueData();
      film := Film(dimension, None, 0);
    }

    /** `Render`: take a command list, record the frame, submit it, present, and
        advance to the other back buffer. An exception from acquiring the list leaves
        the film as it was. */
    method Render(allocatorReply: Creation, listReply: Creation) returns (r: Result<CommandListSubmission, D3D12Error>)
      requires Valid() && film.swapChain.Some?
      modifies this`film, gfxCommandQueue`runningCL, gfxCommandQueue`fenceValue
      ensures Valid()
      ensures r.Failure? ==>
                film == old(film) && gfxCommandQueue.fenceValue == old(gfxCommandQueue.fenceValue) &&
                gfxCommandQueue.runningCL ==
                  (if Reusable(old(gfxCommandQueue.runningCL), gfxCommandQueue.completedValue)
                   then old(gfxCommandQueue.runningCL)[1..] else old(gfxCommandQueue.runningCL))
      ensures r.Success? ==>
                film == old(film).(currentRTVIndex := NextRTVIndex(old(film).currentRTVIndex)) &&
                gfxCommandQueue.fenceValue == old(gfxCommandQueue.fenceValue) + 1 &&
                r.value.fence == gfxCommandQueue.fenceValue &&
                gfxCommandQueue.runningCL ==
                  (if Reusable(old(gfxCommandQueue.runningCL), gfxCommandQueue.completedValue)
                   then old(gfxCommandQueue.runningCL)[1..] else old(gfxCommandQueue.runningCL)) + [r.value]
    {
      var submission := gfxCommandQueue.GetAvailableCommandListSubmission(allocatorReply, listReply);
      if submission.Failure? {
        return Failure(submission.error);
      }
      var stamped := gfxCommandQueue.SubmitCL(submission.value);
      film := film.(currentRTVIndex := NextRTVIndex(film.currentRTVIndex));
      r := Success(stamped);
    }
  }

  /** `ResizeWindow(newDimension)`. Without an integrator or a device it does nothing.
      Otherwise it waits for the GPU, resizes the swap chain's buffers (`resizeOk` is
      the HRESULT) or, when there is none yet, creates one (`swapChainReply` covers
      the DXGI factory and the swap chain), then recreates the depth buffer and the
      render-target and depth-stencil views (`viewsOk`), and finally selects back
      buffer 0 and records the new dimension. Any failure throws, leaving the index and
      the dimension as they were. */
  method ResizeWindow(integrator: Direct3D12Integrator?, newDimension: Dimension,
                      resizeOk: bool, swapChainReply: Creation, viewsOk: bool)
    returns (r: Result<(), D3D12Error>)
    requires integrator != null ==> integrator.Valid()
    modifies if integrator == null then {} else {integrator}
    modifies if integrator == null then {} else {integrator.gfxCommandQueue}
    ensures integrator != null ==> integrator.Valid()
    ensures integrator == null || integrator.device.None? ==>
              r == Success(()) &&
              (integrator != null ==> integrator.film == old(integrator.film) &&
                                      unchanged(integrator.gfxCommandQueue))
    ensures integrator != null && integrator.device.Some? ==>
              var q := integrator.gfxCommandQueue;
              var before := old(integrator.film);
              var swapChain := if before.swapChain.Some? then before.swapChain
                               else if swapChainReply.Created? then Some(swapChainReply.handle) else None;
              q.completedValue == q.fenceValue &&
              q.fenceValue == old(q.fenceValue) && q.runningCL == old(q.runningCL) &&
              (if before.swapChain.Some? && !resizeOk then
                 r == Failure(CantResizeSwapChain) && integrator.film == before
               else if swapChain.None? then
                 r == Failure(CantCreateSwapChain) && integrator.film == before
               else if !viewsOk then
                 r == Failure(CantCreateViews) && integrator.film == before.(swapChain := swapChain)
               else
                 r == Success(()) && integrator.film == Film(newDimension, swapChain, 0))
  {
    if integrator == null || integrator.device.None? {
      return Success(());
    }
    integrator.gfxCommandQueue.WaitForFence();
    if integrator.film.swapChain.Some? {
      if !resizeOk {
        return Failure(CantResizeSwapChain);
      }
    } else {
      if swapChainReply.CreationFailed? {
        return Failure(CantCreateSwapChain);
      }
      integrator.film := integrator.film.(swapChain := Some(swapChainReply.handle));
    }
    if !viewsOk {
      return Failure(CantCreateViews);
    }
    integrator.film := integrator.film.(currentRTVIndex := 0, dimension := newDimension);
    r := Success(());
  }

  // ---------------------------------------------------------------------------------
  // Texture upload

  /** D3D12_TEXTURE_DATA_PITCH_ALIGNMENT. */
  const TEXTURE_DATA_PITCH_ALIGNMENT: nat := 256

  newtype Byte = x: int | 0 <= x < 256

  /** The pitch of one row of a `width`-texel RGBA8 image in the upload buffer: its
      `width * 4` bytes rounded up to the pitch alignment. */
  function RowPitch(width: nat): (pitch: nat)
    ensures pitch % TEXTURE_DATA_PITCH_ALIGNMENT == 0
    ensures width * 4 <= pitch < width * 4 + TEXTURE_DATA_PITCH_ALIGNMENT
  {
    Heap.AlignTo(width * 4, TEXTURE_DATA_PITCH_ALIGNMENT)
  }

  /** Byte `p` of a pitched buffer lies in row `p / pitch`. */
  lemma RowOf(p: nat, pitch: nat, row: nat)
    requires pitch > 0
    ensures p / pitch < row <==> p < row * pitch
    ensures p / pitch == row <==> row * pitch <= p < row * pitch + pitch
    ensures p / pitch == row ==> p % pitch == p - row * pitch
  {
    var q, m := p / pitch, p % pitch;
    assert p == q * pitch + m;
    if q < row {
      MulAtLeast(row - q, pitch);
      assert (row - q) * pitch == row * pitch - q * pitch;
    } else if q > row {
      MulAtLeast(q - row, pitch);
      assert (q - row) * pitch == q * pitch - row * pitch;
    }
  }

  /** A byte inside one of the first `rows` rows of a pitched buffer comes from inside
      the first `rows` rows of the packed image. */
  lemma PitchedIndexInRange(p: nat, pitch: nat, rows: nat, size: nat)
    requires pitch > 0 && p / pitch < rows && p % pitch < size
    ensures (p / pitch) * size + p % pitch < rows * size
  {
    var q := p / pitch;
    MulIndexBound(q, rows, size, p % pitch);
  }

  /** The upload buffer `before` after the first `rows` rows of the tightly packed
      image `src` (`width * 4` bytes a row) have been copied into it at the row
      pitch; the padding after each row and everything past the last row keep their
      bytes. */
  function Staged(before: seq<Byte>, src: seq<Byte>, width: nat, rows: nat): (after: seq<Byte>)
    requires rows * (width * 4) <= |src|
    ensures |after| == |before|
  {
    var size, pitch := width * 4, RowPitch(width);
    if size == 0 then before
    else seq(|before|, p requires 0 <= p < |before| =>
           if p / pitch < rows && p % pitch < size then
             PitchedIndexInRange(p, pitch, rows, size);
             src[(p / pitch) * size + p % pitch]
           else before[p])
  }

  /** Before the first row, nothing is staged. */
  lemma StagedNothing(before: seq<Byte>, src: seq<Byte>, width: nat)
    ensures Staged(before, src, width, 0) == before
  {
    if width * 4 > 0 {
      forall p | 0 <= p < |before| ensures Staged(before, src, width, 0)[p] == before[p] {
        RowOf(p, RowPitch(width), 0);
      }
    }
  }

  /** Byte `c` of row `r` of the image lands at `r * pitch + c`. */
  lemma StagedRow(before: seq<Byte>, src: seq<Byte>, width: nat, rows: nat, r: nat, c: nat)
    requires rows * (width * 4) <= |src|
    requires r < rows && c < width * 4
    requires r * RowPitch(width) + c < |before|
    ensures r * (width * 4) + c < |src|
    ensures Staged(before, src, width, rows)[r * RowPitch(width) + c] == src[r * (width * 4) + c]
  {
    MulIndexBound(r, rows, width * 4, c);
    DivModUnique(r * RowPitch(width) + c, RowPitch(width), r, c);
  }

  /** The padding of each row, and every byte past the last row, is left alone. */
  lemma StagedKeeps(before: seq<Byte>, src: seq<Byte>, width: nat, rows: nat, p: nat)
    requires rows * (width * 4) <= |src|
    requires p < |before|
    requires p >= rows * RowPitch(width) || p % RowPitch(width) >= width * 4
    ensures Staged(before, src, width, rows)[p] == before[p]
  {
    if width * 4 > 0 {
      RowOf(p, RowPitch(width), rows);
    }
  }

  /** Staging row `line` changes bytes `line * pitch + c` for `c < width * 4` to the
      bytes of that row of the image, and no other byte. */
  lemma StagedStepAt(before: seq<Byte>, src: seq<Byte>, width: nat, line: nat, p: nat)
    requires (line + 1) * (width * 4) <= |src|
    requires p < |before|
    ensures line * (width * 4) + width * 4 <= |src|
    ensures var at := line * RowPitch(width);
            Staged(before, src, width, line + 1)[p] ==
              if at <= p < at + width * 4 then src[line * (width * 4) + (p - at)]
              else Staged(before, src, width, line)[p]
  {
    var size, pitch := width * 4, RowPitch(width);
    assert (line + 1) * size == line * size + size;
    MulMonotone(line, line + 1, size);
    if size > 0 {
      assert (line + 1) * pitch == line * pitch + pitch;
      RowOf(p, pitch, line);
      RowOf(p, pitch, line + 1);
    }
  }

  /** Copying row `line` (the `size` bytes of the image from `from`) to offset `at` of
      the buffer staged up to `line` stages one row more. */
  lemma StagedStep(before: seq<Byte>, src: seq<Byte>, width: nat, line: nat, at: nat, from: nat, size: nat)
    requires size == width * 4 && from == line * size && at == line * RowPitch(width)
    requires (line + 1) * size <= |src| && at + size <= |before|
    ensures from + size <= |src|
    ensures var d := Staged(before, src, width, line);
            d[..at] + src[from..from + size] + d[at + size..] == Staged(before, src, width, line + 1)
  {
    assert (line + 1) * size == line * size + size;
    var d := Staged(before, src, width, line);
    var row := src[from..from + size];
    var lhs := d[..at] + row + d[at + size..];
    forall p | 0 <= p < |before| ensures lhs[p] == Staged(before, src, width, line + 1)[p] {
      StagedStepAt(before, src, width, line, p);
      if p < at {
        assert lhs[p] == d[p];
      } else if p < at + size {
        assert lhs[p] == row[p - at];
      } else {
        assert lhs[p] == d[p];
      }
    }
  }

  /** `memcpy(dst + dstOffset, src + srcOffset, n)`. */
  method Memcpy(dst: array<Byte>, dstOffset: nat, src: seq<Byte>, srcOffset: nat, n: nat)
    requires dstOffset + n <= dst.Length && srcOffset + n <= |src|
    modifies dst
    ensures dst[..] == old(dst[..])[..dstOffset] + src[srcOffset..srcOffset + n] + old(dst[..])[dstOffset + n..]
  {
    forall i | dstOffset <= i < dstOffset + n {
      dst[i] := src[srcOffset + i - dstOffset];
    }
  }

  /** One round of the upload loop: the `memcpy` of row `line` to its pitched place
      stages one row more. */
  method CopyRow(dst: array<Byte>, dstPos: nat, src: seq<Byte>, srcPos: nat, size: nat,
                 ghost before: seq<Byte>, width: nat, line: nat)
    requires size == width * 4 && srcPos == line * size && dstPos == line * RowPitch(width)
    requires (line + 1) * size <= |src| && dstPos + size <= dst.Length
    requires dst[..] == Staged(before, src, width, line)
    modifies dst
    ensures dst[..] == Staged(before, src, width, line + 1)
  {
    StagedStep(before, src, width, line, dstPos, srcPos, size);
    Memcpy(dst, dstPos, src, srcPos, size);
  }

  /** Row `line` of a `height`-row image lies inside the image and, at the row pitch,
      inside a buffer that holds the last row. */
  lemma RowFits(src: seq<Byte>, width: nat, height: nat, length: nat, line: nat)
    requires height * (width * 4) <= |src|
    requires line < height && (height - 1) * RowPitch(width) + width * 4 <= length
    ensures (line + 1) * (width * 4) == line * (width * 4) + width * 4 <= |src|
    ensures (line + 1) * RowPitch(width) == line * RowPitch(width) + RowPitch(width)
    ensures line * RowPitch(width) + width * 4 <= length
  {
    MulMonotone(line + 1, height, width * 4);
    MulMonotone(line, height - 1, RowPitch(width));
  }

  /** The upload loop of `InitD3D12`: row by row, copy `width * 4` bytes of the
      decoded image `src` into the mapped upload buffer `dst`, advancing the source by
      the row size and the destination by the row pitch. The caller guarantees that
      the image holds `height` rows and that the last row fits the buffer. */
  method CopyTextureRows(src: seq<Byte>, width: nat, height: nat, dst: array<Byte>)
    requires height * (width * 4) <= |src|
    requires height == 0 || (height - 1) * RowPitch(width) + width * 4 <= dst.Length
    modifies dst
    ensures dst[..] == Staged(old(dst[..]), src, width, height)
  {
    ghost var before := dst[..];
    StagedNothing(before, src, width);
    var srcPos: nat, dstPos: nat := 0, 0;
    var line: nat := 0;
    while line < height
      invariant line <= height
      invariant srcPos == line * (width * 4) && dstPos == line * RowPitch(width)
      invariant dst[..] == Staged(before, src, width, line)
    {
      var size := width * 4;
      var alignedSize := Heap.AlignTo(size, TEXTURE_DATA_PITCH_ALIGNMENT);
      RowFits(src, width, height, dst.Length, line);
      CopyRow(dst, dstPos, src, srcPos, size, before, width, line);
      srcPos := srcPos + size;
      dstPos := dstPos + alignedSize;
      line := line + 1;
    }
  }

  // ---------------------------------------------------------------------------------
  // Index count of a loaded mesh

  const UINT32_MODULUS: nat := 0x1_0000_0000

  /** `indexCount` as `CreateMeshFromObj` computes it: the index buffer's byte size,
      truncated to `UINT`, divided by the byte stride of its DXGI format. */
  function IndexCount(ib: IndexBuffer): (count: nat)
    requires GetByteStrideFromFormat(CoreToDxgiFormat(ib.format)) != 0
    ensures count < UINT32_MODULUS
    ensures var stride := GetByteStrideFromFormat(CoreToDxgiFormat(ib.format));
            count * stride <= ib.size % UINT32_MODULUS < count * stride + stride
  {
    var stride := GetByteStrideFromFormat(CoreToDxgiFormat(ib.format));
    DivisionBounds(ib.size % UINT32_MODULUS, stride);
    (ib.size % UINT32_MODULUS) / stride
  }

  /** For a mesh built from an OBJ file, the index count is the number of face-vertices
      whenever the index buffer's size fits a `UINT` (as it does for every buffer the
      16 MiB geometry allocator can hold), and the topology is the triangle list. */
  lemma MeshIndexCount(positions: seq<Value>, texcoords: seq<Value>, normals: seq<Value>, indices: seq<int>,
                       invertUvs: bool)
    requires IndicesInRange(positions, texcoords, normals, indices)
    ensures var m := AssembledMesh(positions, texcoords, normals, indices, invertUvs);
            GetByteStrideFromFormat(CoreToDxgiFormat(m.indexBuffer.format)) != 0 &&
            (m.indexBuffer.size < UINT32_MODULUS ==> IndexCount(m.indexBuffer) == |indices| / 3) &&
            CoreToD3DTopology(m.topology) == D3D_PRIMITIVE_TOPOLOGY_TRIANGLELIST
  {
    MeshShape(positions, texcoords, normals, indices, invertUvs);
    var m := AssembledMesh(positions, texcoords, normals, indices, invertUvs);
    IndexCountOf(m.indexBuffer, |indices| / 3);
  }

  /** An index buffer of `n` indices in the format the OBJ loader picks for `n`. */
  lemma IndexCountOf(ib: IndexBuffer, n: nat)
    requires ib.format == (if n <= 0xFFFF then R16_UINT else R32_UINT)
    requires ib.size == n * (if n <= 0xFFFF then 2 else 4)
    ensures GetByteStrideFromFormat(CoreToDxgiFormat(ib.format)) != 0
    ensures ib.size < UINT32_MODULUS ==> IndexCount(ib) == n
  {
    var stride := if n <= 0xFFFF then 2 else 4;
    assert GetByteStrideFromFormat(CoreToDxgiFormat(ib.format)) == stride;
    DivModUnique(n * stride, stride, n, 0);
  }
}
