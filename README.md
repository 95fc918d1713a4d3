# RenderScript foreach kernels as SPIR-V GLCompute entry points

This project models the part of the RenderScript-to-SPIR-V compiler that
turns the SPIR-V of a script's foreach kernels into Vulkan compute shaders.
That part is `rsov/compiler/Wrapper.cpp`, and its steps are these:

- The storage-class pass rewrites every global pointer type, forward pointer
  and variable from the Function class to Uniform.
- The script's global block `__GPUBlock` is bound at descriptor set 0,
  binding 0, and gets the member offsets of the LLVM data layout. The
  script's `rs_allocation` variables are bound from binding 3 upwards.
- Each exported kernel is wrapped in a parameterless `void` function,
  exposed as a GLCompute entry point named `"entry_" + name` with local size
  1×1×1. The wrapper computes the linear index X + Gx·(Y + Gy·Z) from the
  InvocationId and NumWorkgroups built-ins. Input i is read at that index
  from a storage buffer at binding i + 2. The kernel is called with the
  inputs, then the coordinates it asks for. Its result is stored into the
  buffer at binding 1.
- After the built-ins are translated, the module is read back. It gets the
  global-allocation metadata buffer at binding 0 (four uint32 members at
  offsets 4, 8, 12, 16, stride 16), the uint32 type, the constants 0 and 1,
  and a Uniform pointer to uint32.
- The driver returns -1 when a module cannot be read back, -2 when its ids do
  not resolve, and -3 at the first kernel that cannot be wrapped. The result
  of decorating the global block is not consulted.

How the model is organised:

- **Ids and declarations.** The module is a `ShaderModule` class. Its global
  section is a sequence of declarations, each carrying its result id. Its
  decorations, functions and entry points are sequences that the methods
  append to. `nextId` plays the builder's id counter.
- **Interning.** The `getXxxType` and `getConstant` calls are modelled as
  "find a declaration of that shape, else append one with a fresh id".
- **Meaning of the wrapper's code.** A small evaluator (`Semantics.Exec`)
  runs the straight-line instructions, so the index computation is proved to
  compute the linear index, not only to have the right shape.
- **Imperative parts.** The loops of the source (the global-section visitor,
  the input loop, the offset and allocation loops, the kernel loop) are
  methods with loop invariants. Each is proved against a function that
  specifies its result.

Files:

- `uint32.dfy`: 32-bit wrapping arithmetic and the linear index.
- `spirv.dfy`: declarations, decorations, instructions, lookups.
- `shader_module.dfy`: the module class, fresh ids and interning.
- `semantics.dfy`: the evaluator.
- `storage_class.dfy`: the storage-class pass.
- `buffers.dfy`: AddBuffer and AddGAMetadata.
- `wrapper_spec.dfy`: what a wrapper is.
- `wrapper.dfy`: AddWrapper.
- `global_buffer.dfy`: DecorateGlobalBuffer.
- `pipeline.dfy`: AddGLComputeWrappers.

## Model

| member | source | states |
|---|---|---|
| Uint32.WrappedIndexIsLinearIndex | rsov/compiler/Wrapper.cpp:185-201 | The four 32-bit wrapping steps that follow the group-size products (Gy'·Z, then Y + ·, then Gx'·(·), then · + X) equal (X + Gx'·(Y + Gy'·Z)) mod 2^32. |
| Uint32.LinearIndexInGrid | rsov/compiler/Wrapper.cpp:185-201 | In a grid of at most 2^32 cells the index does not wrap, and it is below the number of cells. |
| Uint32.LinearIndexInjective | rsov/compiler/Wrapper.cpp:185-201 | In such a grid, distinct invocations get distinct indices, so no two invocations read or write the same element. |
| Uint32.UnflattenLinearIndex | rsov/compiler/Wrapper.cpp:185-201 | In such a grid, the coordinates are recovered from the index by division and remainder. |
| Spirv.FindFunctionAppendUnnamed | rsov/compiler/Wrapper.cpp:127-129 | Registering the unnamed wrapper function leaves every lookup of a kernel by name unchanged. |
| ShaderModules.FindShape | rsov/compiler/Wrapper.cpp:125-136 | Finds the first declaration of the requested shape: no earlier declaration has that shape, and there is none when no declaration has it. |
| ShaderModules.ShaderModule.Intern | rsov/compiler/Wrapper.cpp:125-136 | Returns the id of the declaration of the requested shape. If one exists, that is the id of the first such declaration, and nothing changes. Otherwise a new declaration with a fresh id is appended. Ids stay unique. |
| ShaderModules.ShaderModule.GetBuiltin | rsov/compiler/Wrapper.cpp:151 | The result is an Input variable of the requested built-in. When the global section already declares one, that variable's id is returned and nothing changes. Otherwise a new variable with a fresh id is added. The global section only grows. |
| StorageClassPass.FixGlobalStorageClass | rsov/compiler/Wrapper.cpp:390-393 | The global section afterwards is the declaration-by-declaration rewrite of the old one, and the module's id invariant is kept. |
| StorageClassPass.VisitGlobalSection | rsov/compiler/Wrapper.cpp:370-393 | The in-place traversal leaves exactly the declaration-by-declaration rewrite. |
| StorageClassPass.FixDeclChanges | rsov/compiler/Wrapper.cpp:372-387 | A declaration changes iff it is a pointer type, forward pointer or variable with the Function class. It then becomes Uniform, and its id, name, type and pointee are kept. |
| StorageClassPass.FixAllNoFunction | rsov/compiler/Wrapper.cpp:370-393 | After the pass, no global declaration carries the Function class. |
| StorageClassPass.FixAllIdempotent | rsov/compiler/Wrapper.cpp:370-393 | Running the pass twice is the same as running it once. |
| StorageClassPass.LookupFixAll | rsov/compiler/Wrapper.cpp:370-393 | Every id resolves, after the pass, to the rewritten form of what it resolved to before. |
| Buffers.AddBuffer | rsov/compiler/Wrapper.cpp:77-94 | Creates a fresh Uniform variable. Its pointer type points to a struct whose only member is a runtime array of the element type. The array has ArrayStride size(elem) mod 2^32, the struct is a BufferBlock with member 0 at offset 0, and the variable gets DescriptorSet 0 and Binding `binding`. Exactly these five decorations are appended, in this order, on the array, the struct and the variable. So the Binding decorations grow by this variable's alone. |
| Buffers.AddGAMetadata | rsov/compiler/Wrapper.cpp:40-75 | Creates a fresh Uniform variable at set 0, binding 0. Its type is a BufferBlock struct holding a runtime array with stride 16 of a record of four identical uint32 members at offsets 4, 8, 12 and 16. Exactly eight decorations are appended, in this order: the four member offsets, the array stride, BufferBlock, DescriptorSet 0 and Binding 0. So the Binding decorations grow by this variable's alone. |
| WrapperSpec.Classify | rsov/compiler/Wrapper.cpp:98-123 | A wrapper is generated iff the kernel exists, its signature has the kernel bit and has neither the user-data nor the context bit. An absent kernel whose name starts with "root" is skipped with success. Every other case is a failure. |
| WrapperSpec.IndexCodeComputesLinearIndex | rsov/compiler/Wrapper.cpp:145-201 | With the invocation id (x, y, z) and the workgroup count (nx, ny, nz), the emitted index code binds Index to LinearIndex(x, y, z, nx, ny), and binds XValue, YValue and ZValue to x, y and z. The group-size constant is (1, 1, 1). |
| WrapperSpec.CoordArgs | rsov/compiler/Wrapper.cpp:227-235 | The coordinates passed are a prefix of (X, Y, Z): none without X, X alone without Y, X and Y without Z, all three otherwise. |
| WrapperSpec.LoadsAt | rsov/compiler/Wrapper.cpp:204-223 | The i-th collected argument is the value loaded for input i. |
| KernelWrapper.EmitIndex | rsov/compiler/Wrapper.cpp:145-201 | Emits exactly the index code, with fresh result ids in emission order. It uses the InvocationId and NumWorkgroups built-ins and the (1, 1, 1) group-size constant. |
| KernelWrapper.EmitInputs | rsov/compiler/Wrapper.cpp:204-223 | Input i is a fresh buffer at binding (i + 2) mod 2^32 holding the type of kernel parameter i. It is read through an access chain [0, Index] and a load, in input order. The code is the input code, and the collected arguments are the loads in order. Five decorations are appended per input. The Binding decorations added are input i's at that binding, in input order. |
| KernelWrapper.EmitOutput | rsov/compiler/Wrapper.cpp:242-249 | The output is a fresh buffer at binding 1 holding the kernel's return type. It gets an access chain [0, Index] and a store of the call's result. Five decorations are appended, and the only Binding among them is the output's at binding 1. |
| KernelWrapper.EmitCall | rsov/compiler/Wrapper.cpp:225-249 | The call's arguments are the loads followed by the coordinate prefix. An output store follows iff the signature has an output. |
| KernelWrapper.AddWrapper | rsov/compiler/Wrapper.cpp:96-269 | Succeeds iff the verdict is not a failure, and leaves the module untouched unless a wrapper is generated. Otherwise it appends one unnamed void function whose single block is label, index code, input code, call, output store, return. It also appends a GLCompute entry point "entry_" + name with local size (1, 1, 1), whose interface lists InvocationId and NumWorkgroups exactly when the index is computed. Exactly five decorations are appended per buffer: one buffer per input, plus one for the output iff the signature has an output. The Binding decorations added are input i's buffer at binding (i + 2) mod 2^32, in order, then the output's at binding 1. The input and output buffers are new variables: their ids are at or above the module's next id before the call, and each input buffer comes before the output buffer. Every id resolves as the wrapper needs. |
| KernelWrapper.WrapperBuffersNew | rsov/compiler/Wrapper.cpp:204-249 | Such new buffers are none of the variables the module declared before the wrapper, "__GPUBlock" among them, and the output buffer is none of the input buffers. |
| KernelWrapper.WrapperIndexIsLinearIndex | rsov/compiler/Wrapper.cpp:134-216 | In a generated wrapper that computes the index, running the block up to the index binds the index operand to the linear index. Every input's access chain reads that element of its own buffer. |
| KernelWrapper.WrapperCallArguments | rsov/compiler/Wrapper.cpp:204-239 | In a generated wrapper, call argument i < numInput is the value loaded from the buffer at binding (i + 2) mod 2^32 that holds parameter i's type. These buffers are distinct. The remaining arguments are the coordinates, and there are none without X. |
| GlobalBuffer.FindGlobal | rsov/compiler/Wrapper.cpp:288-294 | The result is the first global of that name, or none when there is no such global. |
| GlobalBuffer.FoundPrefix | rsov/compiler/Wrapper.cpp:336-348 | Counts how many allocation names, from the first, resolve. Each of those resolves, and the next one, if any, does not. |
| GlobalBuffer.GlobalBufferSpec | rsov/compiler/Wrapper.cpp:271-351 | Fails exactly when "__GPUBlock" exists in both modules and either its LLVM type is not a pointer to a struct or some allocation name does not resolve. Every other early return succeeds. |
| GlobalBuffer.GlobalBufferOffsets | rsov/compiler/Wrapper.cpp:299-324 | Member i of the block's struct gets the data layout's offset of element i, truncated to 32 bits, right after the block's set, binding and BufferBlock decorations. |
| GlobalBuffer.GlobalBufferBindings | rsov/compiler/Wrapper.cpp:332-348 | The j-th allocation variable, when it and all before it resolve, gets DescriptorSet 0 and Binding 3 + j, after the offsets. |
| GlobalBuffer.FindGlobalIndex | rsov/compiler/Wrapper.cpp:288-294 | The search loop returns the first global of that name. |
| GlobalBuffer.DecorateOffsets | rsov/compiler/Wrapper.cpp:315-323 | The offset loop appends exactly the per-member offset decorations, in member order. |
| GlobalBuffer.BindAllocations | rsov/compiler/Wrapper.cpp:336-348 | The allocation loop succeeds iff every name resolves. It appends the bindings of the names before the first missing one and keeps them on failure. |
| GlobalBuffer.DecorateGlobalBuffer | rsov/compiler/Wrapper.cpp:271-351 | Its result and the decorations it appends are those of the specification function, along every early return. |
| Pipeline.FirstRejected | rsov/compiler/Wrapper.cpp:438-446 | Finds the first kernel whose verdict is a failure. Every kernel before it succeeds, and when there is none, all succeed. |
| Pipeline.EntryNamesCount | rsov/compiler/Wrapper.cpp:253-266 | When every kernel exists and is wrappable, kernel j gets entry point "entry_" + name, in order, one per kernel. |
| Pipeline.AddWrappers | rsov/compiler/Wrapper.cpp:438-446 | Succeeds iff no kernel is refused, and stops at the first refused one. Of the kernels before it, kernel j gets a wrapper exactly when its verdict is to generate one. Every such wrapper still satisfies all of AddWrapper's facts in the final module. The entry points are the old ones followed by each wrapper's entry point, in kernel order. The functions are the old ones followed by each wrapper function, in the same order. The Binding decorations are the old ones followed by each wrapper's input and output bindings. The decorations grow by five per buffer. Lookups of kernels by name are unaffected. |
| Pipeline.AddKernel | rsov/compiler/Wrapper.cpp:443-445 | One turn of the loop succeeds iff the kernel is not refused. It adds exactly that kernel's share: its wrapper's entry point, its wrapper function, its bindings and five decorations per buffer, or nothing when no wrapper is generated. |
| KernelWrapper.WrapperOkGrow | rsov/compiler/Wrapper.cpp:438-446 | A wrapper's facts survive later wrappers, since those only add declarations and decorations. |
| Pipeline.WrappedKernelEntryPoint | rsov/compiler/Wrapper.cpp:252-266 | A wrapped kernel gets one entry point. It is named "entry_" + its name and runs its wrapper function as GLCompute with local size (1, 1, 1). Its interface is non-empty exactly when the index is computed, and then lists the InvocationId and NumWorkgroups built-in variables. |
| Pipeline.LoopEntryNames | rsov/compiler/Wrapper.cpp:438-446 | The entry points the loop adds carry exactly the names "entry_" + name of the wrapped kernels, in kernel order. |
| Pipeline.LoopEntryPointsOk | rsov/compiler/Wrapper.cpp:252-266 | Every entry point the loop adds is GLCompute with local size (1, 1, 1), and its interface is empty or the two index built-ins. |
| Pipeline.LoopEntryPointsAdded | rsov/compiler/Wrapper.cpp:438-446 | After the loop, the old entry points are a prefix of the new ones, and the rest are named and shaped as above. |
| Pipeline.WrapAll | rsov/compiler/Wrapper.cpp:438-446 | The loop keeps the old entry points as a prefix, and the entry points after them are named and shaped as above. |
| Pipeline.WrapKernels | rsov/compiler/Wrapper.cpp:428-446 | Fixing storage classes, decorating the global block, then the loop. The normalised global section is kept as a prefix, and the global-buffer decorations follow the old ones. The entry-point facts of the loop hold. |
| Pipeline.PrepareAccessors | rsov/compiler/Wrapper.cpp:473-483 | The read-back module gets the metadata buffer, the uint32 type, the constants 0 and 1, and the Uniform pointer to uint32. |
| Pipeline.AddGLComputeWrappers | rsov/compiler/Wrapper.cpp:408-491 | Returns -1 when the kernel module is missing and -2 when its ids do not resolve. Otherwise the storage classes are fixed and the global block is decorated whatever that step returns. It returns -3 at the first refused kernel, then -1 or -2 for the read-back module. On success it hands on a metadata buffer. Whenever it reaches the loop, the old entry points stay a prefix. The added entry points are named "entry_" + name for the wrapped kernels before the first refused one, and each is GLCompute with local size (1, 1, 1). |
| Pipeline.BlockTypedFixAll | rsov/compiler/Wrapper.cpp:430-435 | Fixing storage classes before decorating leaves the lookup of "__GPUBlock" by name unchanged. It also leaves what the block's pointer type points to unchanged, so the block stays typed as DecorateGlobalBuffer expects. |

## Left out

- Deserialisation, `resolveIds`, serialisation and `consolidateAnnotations` are not modelled. Their outcomes are parameters of `AddGLComputeWrappers`: a null module, or a `resolved` flag.
- `TranslateBuiltins` and `TranslateGAAccessors` are not modelled. The module read back after the first of them is a parameter, and the metadata variable handed to the second is the result.
- `AddHeader` is left out: it adds capabilities, the memory model and source extensions, and no property here depends on them.
- The LLVM module is reduced to its globals' names with their struct layouts, plus the outcome of `getRSAllocationInfo`. The data layout and the allocation extraction are inputs.
- The null `SLayout` branch and a failing `memberDecorate` are not modelled. The model assumes the data layout always yields a struct layout and member decorations always succeed.
- `Module::getSize` is the parameter `size`.
- The signature word is modelled as named booleans, not bit positions.
- The module's own helpers (type interning, built-in creation, name lookup) are modelled by their observable behaviour, not their code. The files that implement them are not part of this model.
- The id counter belongs to each module object. In the source, both modules share one builder.
- The wrapper function is appended once its block is complete. The source registers it first and fills the block afterwards; nothing reads the function list in between.
- When no index is computed (none of the In, Out, X, Y or Z bits is set), the index operand of the access chains is id 0, standing for the source's null `Index`. The input loop runs `numInput` times whatever the In bit says. So with `numInput > 0` and none of those bits set, the model, like the source, emits input access chains whose index operand is that null id; the model does not reject this case. `KernelWrapper.WrapperIndexIsLinearIndex` speaks only of wrappers that compute the index.
- AddWrapper: it requires `numInput` to be at most the parameter count of a kernel it wraps. The source reads `getParameter(i)` without a check.
- Pipeline.AddWrappers: each wrapper's buffer freshness (ids at or above the counter before its own turn) is stated by AddWrapper for that turn and not carried to the end of the loop.
- Pipeline.AddWrappers and Pipeline.AddGLComputeWrappers: they require the same of every kernel the loop reaches and wraps, that is, every wrapped kernel before the first refused one (`KernelsFit`). Kernels that are skipped, refused or never reached are unconstrained.
- DecorateGlobalBuffer: it requires that "__GPUBlock", when present, is a variable whose pointer type resolves. The source casts it without a check.
- DecorateGlobalBuffer: the binding of allocation j is `(3 + j) mod 2^32`. This models the wrap of the size_t-to-uint32 conversion.
- Entry-point names are plain string concatenation. NUL termination and `strncmp` on C strings are modelled as a prefix test on the name.
- Pipeline.AddGLComputeWrappers: the error code set by `TranslateBuiltins` is not modelled. The source does not consult it either.
