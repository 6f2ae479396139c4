/** The boundary to the Direct3D 12 / DXGI device. Device objects (command allocators,
    command lists, resources, swap chains) are known to the host only through interface
    pointers; the model identifies each one by an opaque handle. What a creation call
    returns is decided by the device, so it reaches the model as a parameter. */
module Device {

  /** Identity of one device object (the value of its interface pointer). */
  type Handle = nat

  /** The outcome of one `Create...` call into the device: the new object, or a
      failed HRESULT (on which the source throws). */
  datatype Creation = Created(handle: Handle) | CreationFailed
}
