# Stampify: upload workflow and tiling geometry in Dafny

Stampify watermarks a photo with a logo. A React upload screen collects the two
images and posts them to a Flask service, which composites the logo onto the
photo with PIL. This project models the two pieces of that system that contain
logic:

- **`Upload` (`upload_section.dfy`)** models the upload screen component. The
  class `UploadSection` has the component's state slots as fields: `imageFile`,
  `logoFile`, `isDraggingImage`, `isDraggingLogo`, `isProcessing` and the values
  of the two hidden file inputs. Its methods are the event handlers.
  `URL.createObjectURL` and `URL.revokeObjectURL` are modelled as a counter of
  fresh URLs plus a ghost set `live` of the URLs this instance created and has
  not yet revoked. The result URL
  that a successful request hands to the output page is recorded in the ghost
  set `handedOff`, because nothing in the application ever revokes it. The
  invariant `Valid()` says that, while the component is mounted, no replaced
  or removed preview stays live: the URLs this instance created and has not
  revoked are exactly the previews held in the two slots plus the handed-off
  results. So each role owns at most one live preview at any time.
  The `fetch` is a `FetchOutcome` parameter (rejected, or a response with its
  `ok` flag). Alerts and the navigation state are returned as values.
  `handleProcess` is split at its `await`. `BeginProcess` is the synchronous
  part: it checks both slots, sets `isProcessing` and builds the request.
  `FinishProcess` is the continuation. `HandleProcess` runs both parts with
  no event in between. `ClickApply` is the Apply button: it does nothing while
  the button is disabled.
- **`Watermark` (`watermark.dfy`)** models the integer geometry of
  `backend/watermark.py`. A canvas is its size plus the list of origins at which
  the watermark was composited, in compositing order. `TileWatermark` keeps the
  nested `while` loops of `tile_watermark`. It is proved equal to the
  specification function `TileOrigins`, the grid of columns with steps
  `w + padding` and `h + padding`. Lemmas about `TileOrigins` give the
  properties the loop promises: bounds, grid membership, coverage,
  column-major order and the count. `CenteredOrigin` and `PlacementOrigin`
  model the `pos` choice of the non-tiled branch. Python's `//` by 2 is the
  same as Dafny's `/` by 2, because Euclidean division agrees with floor
  division for a positive divisor. `ScaleBranch` models which branch
  `scale_keep_aspect` takes. Python truthiness is kept, so a target of 0
  counts as "not given".
- `Wrappers` (`wrappers.dfy`) holds the `Option` type.

## Model

| member | source | states |
|---|---|---|
| `Upload.WatermarkedName` | frontend/src/pages/home/components/UploadSection.tsx:115 | the handed-off name is `watermarked-` followed by the original name, which can be recovered from it |
| `Upload.UploadSection.constructor` | frontend/src/pages/home/components/UploadSection.tsx:11-15 | both slots start empty, all flags start false, and the instance holds no live URL |
| `Upload.UploadSection.CreateObjectUrl` | frontend/src/pages/home/components/UploadSection.tsx:26 | the URL returned was not live before and is live now; nothing else becomes live |
| `Upload.UploadSection.RevokeObjectUrl` | frontend/src/pages/home/components/UploadSection.tsx:30 | revoking removes exactly that URL from the live set |
| `Upload.UploadSection.HandleFileSelect` | frontend/src/pages/home/components/UploadSection.tsx:20-36 | a file whose type does not start with `image/` raises the alert and changes nothing. Otherwise the role's slot holds the file with a fresh preview, the old preview is revoked, the other slot is untouched, the flags are unchanged, and the no-leak invariant is kept |
| `Upload.UploadSection.HandleDragEnter` | frontend/src/pages/home/components/UploadSection.tsx:42-46 | sets the given role's drag flag and leaves the other role's flag unchanged |
| `Upload.UploadSection.HandleDragLeave` | frontend/src/pages/home/components/UploadSection.tsx:48-52 | clears the given role's drag flag and leaves the other role's flag unchanged |
| `Upload.UploadSection.HandleDrop` | frontend/src/pages/home/components/UploadSection.tsx:54-63 | clears that role's drag flag only. An empty file list changes no slot and no URL. Otherwise only the first file goes through intake |
| `Upload.UploadSection.HandleInputChange` | frontend/src/pages/home/components/UploadSection.tsx:65-70 | a missing or empty file list changes nothing. Otherwise the role's input holds the first picked file and that file goes through intake; the other input, the drag and processing flags are unchanged |
| `Upload.UploadSection.HandleRemove` | frontend/src/pages/home/components/UploadSection.tsx:72-82 | on a filled slot: revokes its preview, empties the slot and resets that role's input value. On an empty slot: changes nothing. The other role is never touched |
| `Upload.UploadSection.BeginProcess` | frontend/src/pages/home/components/UploadSection.tsx:84-94 | with either slot empty: alerts, sends no request and leaves `isProcessing` as it was. Otherwise: sets `isProcessing` and builds the POST to the endpoint, with `main_image` (the image slot's file) then `watermark_image` (the logo slot's file) |
| `Upload.UploadSection.FinishProcess` | frontend/src/pages/home/components/UploadSection.tsx:96-123 | `isProcessing` ends false. Only an ok response creates a fresh result URL and hands it off under `watermarked-<name>`. A rejection or a non-ok response alerts and allocates nothing |
| `Upload.UploadSection.HandleProcess` | frontend/src/pages/home/components/UploadSection.tsx:84-124 | a request is sent iff both slots are filled, and then it carries exactly the two parts in order. A handoff happens iff the response is ok, and its name is `watermarked-` plus the image slot's file name. On success there is no alert and the handed-off URL is fresh and live; on failure no URL is created or revoked. Both slots keep their files and `isProcessing` ends false, whether the request succeeds or fails |
| `Upload.UploadSection.ClickApply` | frontend/src/pages/home/components/UploadSection.tsx:318-319 | a click while the button is disabled changes nothing. The button is enabled iff both slots are filled and no request is in flight. An enabled click starts processing and disables the button |
| `Upload.OneLivePreviewPerRole` | frontend/src/pages/home/components/UploadSection.tsx:26-35 | under the invariant, the live non-result URLs are exactly the slot previews. There are at most two, and every filled slot's preview is live |
| `Watermark.CeilDivCounts` | backend/watermark.py:30-35 | `ceil(n/d)` is the number of multiples `k*d` (k >= 0) below `n`, which is the number of iterations of a loop stepping by `d` from 0 up to `n` |
| `Watermark.GridLength` | backend/watermark.py:29-35 | a grid of `cols` columns with `rows` rows each has `cols*rows` origins |
| `Watermark.GridSound` | backend/watermark.py:29-35 | every origin of the grid is the grid point of some column `i < cols` and some row `j < rows` |
| `Watermark.GridComplete` | backend/watermark.py:29-35 | every grid point of a column `i < cols` and a row `j < rows` is in the grid |
| `Watermark.GridOrdered` | backend/watermark.py:29-35 | with positive steps the grid is listed in strictly increasing column-major order |
| `Watermark.TileWatermark` | backend/watermark.py:24-36 | `padding` defaults to 50. The loop returns a canvas of the requested size. It has no placements when the watermark width or height is 0, and otherwise exactly `TileOrigins`, in order |
| `Watermark.TileWithinCanvas` | backend/watermark.py:29-33 | every origin satisfies `0 <= x < W` and `0 <= y < H` |
| `Watermark.TileOnGrid` | backend/watermark.py:29-35 | every origin is `(i*(w+padding), j*(h+padding))` for naturals `i`, `j` |
| `Watermark.TileCovers` | backend/watermark.py:29-35 | every grid point that lies inside the canvas is an origin |
| `Watermark.TileOrdered` | backend/watermark.py:29-35 | origins are listed column by column: `x` never decreases, `y` strictly increases within a column, so no origin is composited twice |
| `Watermark.TileCount` | backend/watermark.py:29-35 | there are `ceil(W/(w+padding)) * ceil(H/(h+padding))` origins, and 0 when `w`, `h`, `W` or `H` is 0 |
| `Watermark.CenteredOrigin` | backend/watermark.py:58 | each coordinate is the floor of half the slack: `2x <= W - ww < 2x + 2`, and the same for `y` |
| `Watermark.CenteredBalanced` | backend/watermark.py:86 | the right margin equals the left margin or exceeds it by one pixel, and the same holds for bottom and top |
| `Watermark.CenteredNonNegative` | backend/watermark.py:85-86 | the centred origin is non-negative on an axis iff the watermark is no larger than the canvas on that axis |
| `Watermark.CenteredFits` | backend/watermark.py:57-58 | a watermark that fits in the canvas is placed entirely inside it |
| `Watermark.PlacementOrigin` | backend/watermark.py:57-60 | an explicit position is used verbatim; otherwise the watermark is centred |
| `Watermark.WatermarkLayer` | backend/watermark.py:46-62 | with `tile`, the layer holds the tiled origins. Otherwise it holds the one origin chosen by `PlacementOrigin`, on a canvas of the foreground's size |
| `Watermark.ScaleBranch` | backend/watermark.py:14-22 | the image is left unchanged iff both targets or neither target are given. It is fitted to the width iff only the width is given, and to the height iff only the height is given, with the given target |

## Left out

- `handleDragOver` only calls `preventDefault`; it has no state to model.
- The browser stores a picked file in the input's `value` as a path such as `C:\fakepath\<name>`; the model stores the file's name.
- Unmounting is not modelled. The component has no cleanup on unmount, so after a successful run `navigate('/output')` leaves both slot previews live, together with the result URL, and nothing revokes them. A component mounted later starts with an empty `live` set, which holds only the URLs that instance creates, so this leak, which grows with each successful run, is not visible across instances.
- React's asynchronous re-rendering is not modelled. Each handler sees the latest state, not the state captured by its render. `FinishProcess` takes the submitted main image as a parameter. Nothing stops a client from calling other handlers between `BeginProcess` and `FinishProcess`, just as nothing in the component does, except the Apply button.
- `fetch`, `response.blob`, `navigate`, `alert` and `console.error` are effects. The fetch is a `FetchOutcome` parameter, the alert text and the navigation state are returned values, and the response bytes are not modelled.
- `frontend/src/pages/output/OutputPage.tsx`, `frontend/src/components/Header.tsx`, `frontend/src/App.tsx` and `backend/app.py` are not part of this model. They contain browser calls, markup, routing and file I/O.
- `set_opacity`, the resize ratio, LANCZOS resampling and `int(width * wm_scale)` are floating-point work inside PIL. The scaled watermark size is an input to `WatermarkLayer`, and `ScaleBranch` only chooses the branch, not the new size.
- PIL pixel compositing is not modelled. This includes clipping copies that overhang the canvas edge, and PIL rejecting a negative destination, which a centred watermark larger than the canvas produces (`CenteredNonNegative` says when that happens). Only the origins are recorded.
- `TileWatermark` requires `TileTerminates`. When a loop body would run with a step `w + padding` or `h + padding` that is not positive, the Python loop never ends, so there is no result to model.
- The command-line `__main__` dispatch of `watermark.py` and its `print` calls are process I/O.
