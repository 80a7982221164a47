# Snow demo core in Dafny

A model of the sequential logic underneath a single-file OpenGL snow demo
(`src/main.cxx`). The demo keeps the state of 8192 snow particles in two
floating-point textures, draws the particles from one texture each frame, runs a
shader pass that writes the next state into the other texture through a
framebuffer, and then swaps the two roles. It also assembles shader sources
with injected `#define` lines and loads a terrain mesh whose materials name
textures by file name.

The model covers four pieces, one module each (plus `Results`, the
failure-carrying `Option`/`Result` types):

- `Particles` (`particles.dfy`): the 16-float particle record and its
  packed row layout in the state texture; `rand01`/`randrange`; how
  `genparticletex` fills each record from eleven successive `rand()` results,
  with the reset snapshot copied from the live fields.
- `PingPong` (`ping_pong.dfy`): the two texture names, the framebuffer's
  colour attachment and GPU texture memory as a `ParticleStore` class;
  `genparticlefbo` on the empty texture; `swapparticletex`; the frame loop's
  draw / step / swap order. Pure functions over a `Handles` value state what
  the loop does over any number of frames.
- `ShaderSource` (`shader_source.dfy`): the three buffers `compileshaderdefs`
  hands to `glShaderSource` (version string, a prelude of one newline plus one
  `#define name value` line per map entry, the file body, each with its
  length), `compileshader` with no defines, and a parser that reads a prelude
  back into its entries.
- `SceneLoad` (`scene_load.dfy`): the interleaved vertex buffer and its
  attribute offsets, flattening faces into a 16-bit index buffer, the
  material-index check, diffuse/normal/specular slot resolution against the
  scene's texture map, and the loop over meshes in `loadscene`.

Modelling choices:

- GL texture, framebuffer and buffer names are opaque naturals.
- Floats are `real`.
- The loader's per-mesh checks become `Err` results: a face that is not a
  triangle (`src/main.cxx:385`), a material index out of range (408), and a slot
  naming a texture absent from the texture map (420, 429, 438). The program's
  other `assert`s are not modelled; "## Left out" lists them.
- The unordered maps' iteration order is an input: a sequence of the map's
  entries in the order the map yields them.
- The particle update pass lives in a shader file that is not part of this
  model. It is a function parameter `step`, and the time measured each frame is
  an input sequence.
- `loadtex` (image decoding and upload) is a function parameter.

Facts about the code the model relies on:

- The particle record declares 16 floats, so `szparticle` is 16. The reset
  snapshot includes `initialy`, which is drawn on its own and is not a copy of `y`.
  The other snapshot fields are copies of the live fields.
- The loader uploads a mesh's vertex and index buffers before it checks that
  mesh's material and textures. Earlier meshes are fully uploaded by then. So a
  missing texture stops the program after some buffers have been uploaded.
- Index values are stored as 16-bit `GLushort`. A vertex index of 65536 or
  more is silently truncated modulo 65536. The model writes this truncation out.

## Model

| member | source | states |
|---|---|---|
| Particles.Fields | src/main.cxx:171-178 | a record packs into exactly `szparticle` = 16 floats in declaration order, each field at its fixed offset, and unpacking the row gives the record back |
| Particles.FieldsOfFromFields | src/main.cxx:171-178 | any 16-float row unpacks and repacks to itself, so rows and records correspond one to one |
| Particles.Rand01 | src/main.cxx:200 | `(rand() % 10001) / 10000` lies in [0, 1] for every `rand()` result |
| Particles.RandRange | src/main.cxx:201 | `randrange(s, e)` lies between `s` and `e` whichever way round they are |
| Particles.MakeParticle | src/main.cxx:203-214 | a record filled from eleven draws copies x, z, vx, vy, vz into its snapshot and lies in the ranges: x, z in [-5.5, 5.5], y in [0, 5.5], initialy in [4.5, 6], vx, vz in [-0.5, 0.5], vy in [-0.5, -0.15], ax, az in [-0.015, 0.015], ay in [-0.015, -0.001], scale in [0.025, 0.085]; vy and ay are negative |
| Particles.GenParticleData | src/main.cxx:193-215 | the filling loop yields `nparticles` records, record i built from draws 11i to 11i+10, each one initialised as above |
| Particles.TexelAt | src/main.cxx:218-219 | the uploaded `szparticle` x `nparticles` texture has 16 times as many texels as records, and texel (row i, column f) is field f of record i |
| Particles.RowRoundTrip | src/main.cxx:218-219 | row i of the uploaded texture unpacks to record i |
| Particles.GenParticleTexels | src/main.cxx:180-225 | the texture `genparticletex` uploads has 16 x 8192 texels and every row unpacks to an initialised record |
| PingPong.Swapped | src/main.cxx:266-283 | a swap exchanges the current and next names and leaves the write target on the new next texture, whatever the state before |
| PingPong.SwapTwice | src/main.cxx:269-271 | two swaps restore the current/next pair, and restore the whole state exactly when the attachment was the next texture |
| PingPong.AfterFramesAlternates | src/main.cxx:684-764 | starting from attachment = next, the handles after n frames are the initial ones for even n and the swapped ones for odd n |
| PingPong.NoReadWriteAliasing | src/main.cxx:732-759 | with two distinct textures and attachment = next initially, in every frame the texture the step reads differs from the one it writes, and the two names stay the original two |
| PingPong.DrawSeesLastWrite | src/main.cxx:715-759 | the texture drawn in frame n+1 is the one the step wrote in frame n |
| PingPong.LogChains | src/main.cxx:715-759 | in a run's log, each frame draws what the previous frame wrote |
| PingPong.ParticleStore.constructor | src/main.cxx:655-658 | after creating both textures and `genparticlefbo(particletex2)`, texture memory holds exactly the initial data under the current name and the empty contents under the other, both of the `szparticle` x `nparticles` shape, and the attachment is the non-current texture |
| PingPong.ParticleStore.Swap | src/main.cxx:266-283 | `swapparticletex` exchanges the two names, attaches the previously current texture, keeps texture memory unchanged, and preserves the store's invariant |
| PingPong.ParticleStore.Frame | src/main.cxx:685-764 | one iteration draws from and steps from `particletex`, writes only the attached texture (never the one read), and after the swap the current texture holds the stepped state |
| PingPong.ParticleStore.RunLoop | src/main.cxx:684-764 | after k frames the current texture holds the initial state stepped k times with the measured times in order, the other texture holds the state one step earlier (nothing changes when no frame runs), the set of textures is unchanged, the handles follow `AfterFrames`, and no logged frame reads the texture it writes |
| ShaderSource.DefineLine | src/main.cxx:71 | one define line is 10 characters longer than its name and value together |
| ShaderSource.Lines | src/main.cxx:70-71 | the define lines take up exactly the sum of their lengths |
| ShaderSource.BuildPrelude | src/main.cxx:68-72 | the streaming loop yields a newline followed by one define line per entry in iteration order; its length is 1 plus the lines' lengths; with no entries it is a single newline |
| ShaderSource.PreludeHasLine | src/main.cxx:68-72 | entry i's line `#define k v` plus newline appears in the prelude at its own offset, after the leading newline |
| ShaderSource.ParseLinesRoundTrip | src/main.cxx:70-71 | define lines of names without spaces or newlines and values without newlines read back as exactly the entries, in order |
| ShaderSource.PreludeRoundTrip | src/main.cxx:68-72 | a prelude reads back as exactly its entries, so it holds one line per entry and nothing else |
| ShaderSource.CompileShaderDefs | src/main.cxx:64-81 | the compiler receives three buffers: the version string, the prelude and the body, each passed with its own length |
| ShaderSource.CompileShader | src/main.cxx:102-108 | with the empty define map the buffers are the version string, a single newline and the body |
| ShaderSource.DefinePlacement | src/main.cxx:78-81 | in the compiled text the version line is closed by a newline, every define line lies after it and wholly before the body, and the body ends the text |
| ShaderSource.DefaultVersionLine | src/main.cxx:26 | with the default version string every compiled text opens with the line `#version 430 core`, closed by the prelude's newline |
| ShaderSource.Decimal | src/main.cxx:567-571 | streaming a count produces a non-empty string of decimal digits |
| ShaderSource.DecimalRoundTrip | src/main.cxx:567-571 | the digits produced denote the streamed number |
| ShaderSource.MainDefineValues | src/main.cxx:565-572 | the stepping shader's defines are `nparticles` = "8192" and `szparticle` = "16" |
| ShaderSource.MainDefinesOnce | src/main.cxx:565-588 | in whatever order the map is iterated, the stepping shader's prelude reads back as its entries, with `nparticles` defined exactly once, as 8192, and `szparticle` once, as 16 |
| SceneLoad.VertexLayout | src/main.cxx:302-314 | the packed vertex holds 14 floats, and the attribute offsets 0, 3, 5, 8, 11 used for the vertex pointers each land on that attribute's components |
| SceneLoad.BuildVertices | src/main.cxx:351-373 | vertex j carries the mesh's position, normal, tangent and bitangent j, and its first texture coordinate pair, or (0, 0) when the mesh has none |
| SceneLoad.FirstNonTriangle | src/main.cxx:384-385 | the reported face is the first face without exactly three indices |
| SceneLoad.IndicesAt | src/main.cxx:380-389 | the index buffer has `3 * nfaces` entries and entry 3j+k is corner k of face j, truncated to 16 bits (unchanged below 65536) |
| SceneLoad.FlattenIndices | src/main.cxx:379-389 | the index loop succeeds exactly when every face is a triangle, producing that buffer, and otherwise stops at the first face that is not one |
| SceneLoad.ResolveSlot | src/main.cxx:416-423 | an empty slot gives handle 0; a named slot succeeds exactly when the name is in the texture map, with the map's handle, and fails naming the absent texture |
| SceneLoad.TextureMap | src/main.cxx:325-327 | the scene's texture map has exactly the names of the requested texture map as keys |
| SceneLoad.LoadModel | src/main.cxx:339-446 | one mesh loads only if all its faces are triangles and its material index is in range; the model then holds `nindices` = 3 x faces indices and the mesh's vertex buffer, and a failure names that mesh |
| SceneLoad.LoadAll | src/main.cxx:335-448 | a successful load yields one model per mesh |
| SceneLoad.LoadScene | src/main.cxx:317-454 | the loader's loop returns the scene of loaded textures and models exactly when every mesh loads, and otherwise the failure of the first mesh that does not |
| SceneLoad.FailureStops | src/main.cxx:336-448 | a failure at some mesh ends the whole load with that failure |
| SceneLoad.LoadAllOk | src/main.cxx:336-448 | the load succeeds if and only if every mesh loads, and model i is then mesh i loaded |
| SceneLoad.LoadAllErr | src/main.cxx:336-448 | a failed load reports the failure of a mesh all of whose predecessors load |
| SceneLoad.LoadModelSound | src/main.cxx:379-443 | a loaded model has `nindices` = 3 x faces indices holding the faces' corners, its material index was in range, and each slot handle is 0 for a null material or empty slot, else the map's handle for the slot's texture |
| SceneLoad.LoadModelFails | src/main.cxx:384-441 | a non-triangle face, then a material index out of range, then a missing diffuse, normal or specular texture, each fails the mesh with that error, in this order of checks |
| SceneLoad.SceneTexturesResolve | src/main.cxx:407-446 | in a loaded scene every texture a model's material names is in the scene's texture map and the model holds its handle |

## Left out

- All GL calls: texture parameters and uploads, framebuffer binding and completeness checks, uniforms, vertex array and buffer objects, draws. These are foreign calls. Handles are opaque naturals, and a model keeps its buffers' contents rather than the vertex array's name.
- Window creation, the resize and cursor callbacks, camera rotation, event polling: window-system I/O. `drawscene`'s matrices and its texture-flag uniforms are floating-point and GL calls.
- Reading shader and image files, the image decoder and the mesh importer. These are I/O and foreign libraries. Their outputs are inputs here: the shader body string, the `loadtex` function and the `Mesh`/`Material` values.
- `loadtex` is a pure function here. The fact that each call creates a fresh texture name is not modelled.
- Compile and link status checks, info-log printing and `linkprogram`: diagnostic I/O followed by process exit.
- The particle update pass, `compute_fs.glsl`, is not part of this model. It is the parameter `step`, so its integration and its reset-below-`minY` rule are not stated.
- The stepping pass is taken to write the whole `szparticle` x `nparticles` viewport it is given (`FillsViewport`), so both textures keep their shape. What it writes there is not modelled.
- The time measured with `glfwGetTime` is the input sequence `dts`. The window-close request is the length of that sequence.
- The contents of `genparticletexempty`'s texture are undefined and enter as the parameter `empty`.
- The C `rand()` generator and its seeding from the clock. Draws are an input sequence.
- Float rounding: a rounded `randrange` could in principle land a hair outside its interval. The model uses exact reals.
- The gradient vertex array, the terrain's position and scale set in `main`, the scene's default transform, and `main` overwriting the first model's diffuse and normal handles after loading. These are constant data and glue outside the loader.
- `GLint` and `int` overflow of shader source lengths and of `3 * mNumFaces`. These are not modelled. The 16-bit truncation of index values is modelled.
- Complete: meshes whose normal, tangent or bitangent arrays are missing are excluded. The loader reads these arrays without a check (`src/main.cxx:364-372`) and would dereference null for them. By the importer's documented behaviour this covers a mesh with no texture coordinates (no tangent space is computed) and a line or point mesh (no normals).
- Asserts other than the loader's per-mesh checks, which the model leaves out or takes as given: the shader file opens (line 51); the image decodes (144), so `loadtex` is total here; the framebuffer is complete (258, 278); the importer returns a scene (333), so `meshes` is a plain input; the terrain has a model (607); the window-system and loader setup succeeds (528, 541, 546).
- The loader's checks are `assert`s. The model assumes they are compiled in. Under `NDEBUG` a bad face or a bad material index would be read out of bounds instead of stopping the program.
- MainDefinesOnce: "exactly once" counts over the entries read back from the prelude. It is not a count of textual occurrences in the whole compiled text, because the shader body is arbitrary and may mention the name itself.
- PingPong.ParticleStore.Frame: it models only the particle textures of an iteration. Clearing, the terrain and gradient draws and buffer presentation are left out as GL calls.
