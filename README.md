# TPyaar: image editor and chat endpoints, modelled in Dafny

TPyaar is a Next.js chat companion. A user chats with a Gemini model in one of three personas (normal,
boyfriend, girlfriend) and four language preferences. They can attach images, video and audio, ask for
generated images (`/img:`) and videos (`/video:`), and get a storyboard for a prompt. Signed-in users get
their chat history stored under a 100 MiB quota.

This project models the core of the repository:

- **The image editor dialog.** It opens an attached image and previews it on a 1024x576 canvas with zoom,
  pan and a rectangular selection. On export it applies one effect to the selection, or to the whole image
  when there is no selection. The effects are a CSS filter, pixelation, or a 3x3 sharpen convolution. It
  then draws optional caption text, optionally upscales 2x with a mild sharpen, and names the exported PNG.
- **The chat page's state transitions.** These cover attachments, submit, the consent prompt, typed
  generator commands, streamed replies, finalisation, the transcript export and clearing.
- **The server routes.** These are the chat route, the storyboard route, the three history routes over a
  session, message and usage store, image analysis with its data-URL parsing, and image and video
  generation with their candidate-model fallback.

### How the code is mapped

- **Changing state becomes a method over a class.** Where the code changes state step by step, the model is
  a `method` on a class whose fields are that state:
  - `EditorView.Editor` holds the editor's view fields;
  - `ChatPage.Chat` holds the page's message list, input and pending attachments;
  - `HistoryStore.Store` holds the database tables;
  - `Raster.Canvas` and `Raster.ImageData` hold the HTML canvas bitmaps.
- **Loops stay loops.** The convolution, the history aggregation, the stream loop and the three provider
  fallback loops are `while` loops. Each is proved against a function that states its result.
- **Pure code becomes functions.** Pure code becomes functions whose contracts say what the result means.
  Lemmas relate the operations to each other: round trips, idempotence, accounting invariants.

### Inputs the model takes as parameters

Everything the code only receives from outside is a parameter of the model:

- provider answers, as a sequence of per-candidate outcomes;
- `JSON.parse` and `Number`, as functions;
- the authenticated user;
- the clock text;
- database errors;
- fresh ids;
- the pixels that the browser itself draws (filters, resampling, glyphs).

### Arithmetic

Arithmetic is exact: `real` for JavaScript numbers, `int` for the integer conversions the code performs.
The store into a `Uint8ClampedArray` is ECMA-262's ToUint8Clamp (clamp, then round half to even). The
canvas rules follow the HTML standard:

- `getImageData` with a negative extent reads the normalised rectangle;
- a zero extent throws `IndexSizeError`;
- pixels outside the bitmap read as transparent black;
- `putImageData` clips to the bitmap.

Byte counts are UTF-8 lengths as defined in section 3 of RFC 3629. The bearer token follows section 2.1 of
RFC 6750. Data URLs follow section 3 of RFC 2397, parsed with the route's own regular expression.

### The convolution's border ring

The convolution writes into a fresh all-zero `ImageData` (line 84) and only visits interior pixels
(lines 92-93). The border ring of every sharpened region therefore comes out transparent black. A sharpen
is meant to make the region it edits crisper, not to cut a transparent frame around it, and the 2x upscale
sharpens the whole exported picture the same way, so its outer ring is lost too. The model follows the code
(`Convolution.Convolved`, `Convolution.BorderIsZero`). The border-keeping alternative, which copies the
ring from the source, is `Convolution.ConvolvedKeepingBorder` (see Findings).

### Files

| file | contents |
|---|---|
| `wrappers.dfy` | `Option` |
| `text.dfy` | JavaScript string helpers: white space and `trim`, `startsWith`, `slice`, `split`/`join`, `lastIndexOf`, ASCII `toLowerCase`, UTF-8 length |
| `raster.dfy` | `ImageData`, canvas bitmaps, `getImageData` / `putImageData` |
| `convolution.dfy` | `applyConvolution` |
| `editor_view.dfy` | the view-and-selection state machine and the fit-to-canvas placement |
| `editor_export.dfy` | `cssFilterFor`, the pixelate and sharpen arithmetic, the caption layout, the export plan and `applyAndExport` |
| `chat_page.dfy` | the chat page |
| `chat_route.dfy` | the chat route |
| `storyboard_route.dfy` | the storyboard route |
| `history_store.dfy` | the history tables |
| `history_save.dfy`, `history_list.dfy`, `history_delete.dfy` | the history routes |
| `analyze_image_route.dfy` | the image-analysis route |
| `media_shapes.dfy` | what the two generation routes share |
| `generate_image_route.dfy`, `generate_video_route.dfy` | the generation routes |

## Model

| member | source | states |
|---|---|---|
| Raster.PixelOf | components/image-editor-dialog.tsx:90 | the offsets `idx(x, y) + c` of an in-bounds pixel lie inside the row-major RGBA buffer and decode back to that pixel and channel |
| Raster.CoordinatesOf | components/image-editor-dialog.tsx:90 | every buffer offset is channel `c` of exactly one in-bounds pixel |
| Raster.Normalize | components/image-editor-dialog.tsx:205 | a rectangle with negative width or height becomes the equivalent one with positive extents, as `getImageData` reads it |
| Raster.NormalizeSpan | components/image-editor-dialog.tsx:205 | the normalised rectangle covers exactly the same pixels, and normalising is idempotent |
| Raster.Crop | components/image-editor-dialog.tsx:205 | the rectangle read from the bitmap has four bytes per pixel of the rectangle |
| Raster.CropAt | components/image-editor-dialog.tsx:205 | pixel (x, y) of the read rectangle is bitmap pixel (sx + x, sy + y), or transparent black outside the bitmap |
| Raster.Paste | components/image-editor-dialog.tsx:210 | writing an image into the bitmap keeps the bitmap's size |
| Raster.PasteAt | components/image-editor-dialog.tsx:210 | after writing, pixels under the image take its values and all others keep theirs |
| Raster.CropWhole | components/image-editor-dialog.tsx:247 | reading the full extent of a canvas gives its bitmap back |
| Raster.PasteWhole | components/image-editor-dialog.tsx:251 | writing a full-size image at the origin replaces the whole bitmap |
| Raster.ImageData.constructor | components/image-editor-dialog.tsx:84 | `new ImageData(w, h)` is w by h pixels, all channels zero |
| Raster.Canvas.Read | components/image-editor-dialog.tsx:205 | `getImageData` fails exactly when the width or height is zero |
| Raster.Canvas.GetImageData | components/image-editor-dialog.tsx:205 | returns a fresh image of the normalised size holding the pixels `Read` describes, or the IndexSizeError for a zero extent |
| Raster.Canvas.PutImageData | components/image-editor-dialog.tsx:210 | the bitmap becomes the bitmap with the image pasted at (dx, dy), clipped |
| Raster.Canvas.Repaint | components/image-editor-dialog.tsx:217-220 | a browser-drawn operation leaves exactly the pixels the browser produced |
| Convolution.ToUint8Clamp | components/image-editor-dialog.tsx:108-110 | a `Uint8ClampedArray` store: 0 at or below 0, 255 at or above 255, otherwise within one half of the value and even on a tie |
| Convolution.ToUint8ClampExact | components/image-editor-dialog.tsx:108-110 | a whole channel value is stored unchanged |
| Convolution.Clamp255 | components/image-editor-dialog.tsx:108-110 | `Math.min(255, Math.max(0, v))` lies in [0, 255], and is `v` inside that range |
| Convolution.EffectiveDivisor | components/image-editor-dialog.tsx:88 | `divisor \|\| sum \|\| 1`: the divisor if non-zero, else the kernel sum if non-zero, else 1, and never 0 |
| Convolution.Store | components/image-editor-dialog.tsx:108-110 | a stored colour channel is the nearest byte to `sum / div + bias`, or 0 or 255 when that leaves the range |
| Convolution.Convolved | components/image-editor-dialog.tsx:81-115 | the output buffer has the input's size |
| Convolution.NeighbourhoodSums | components/image-editor-dialog.tsx:94-106 | the two tap loops leave in r, g, b the weighted sums of the nine neighbours' channels, row by row in kernel order |
| Convolution.TapStep | components/image-editor-dialog.tsx:100-104 | tap `n` reads neighbour (x + kx, y + ky) at an in-bounds offset and adds its weighted value |
| Convolution.ConvolvedAt | components/image-editor-dialog.tsx:107-111 | output offset `idx(x, y) + c` holds channel `c` of output pixel (x, y) |
| Convolution.InteriorPixel | components/image-editor-dialog.tsx:107-111 | an interior pixel's colours are the stored sums and its alpha is the source alpha |
| Convolution.ConvolvedZeroOffInterior | components/image-editor-dialog.tsx:84 | every output offset outside the interior is zero |
| Convolution.ApplyConvolution | components/image-editor-dialog.tsx:81-115 | returns a fresh image of the input's width and height whose bytes are `Convolved` with the effective divisor |
| Convolution.ConvolveRow | components/image-editor-dialog.tsx:93-112 | one pass of the `x` loop writes row `y`'s interior pixels and leaves everything after them zero |
| Convolution.SkipBorder | components/image-editor-dialog.tsx:92-93 | the loops skip only offsets `Convolved` leaves zero |
| Convolution.WritePixel | components/image-editor-dialog.tsx:108-111 | writing the four channels of a pixel moves the scan over exactly that pixel |
| Convolution.StoreOfClamped | components/image-editor-dialog.tsx:108-110 | clamping before the store changes nothing the store would not already do |
| Convolution.BorderIsZero | components/image-editor-dialog.tsx:84 | every channel of a border-ring output pixel is zero, alpha included |
| Convolution.NarrowIsZero | components/image-editor-dialog.tsx:92-93 | an image narrower or shorter than 3 pixels comes out entirely zero |
| Convolution.UniformIsPreserved | components/image-editor-dialog.tsx:88 | with weights summing to 1, divisor 1 and no bias, an interior pixel in a uniform neighbourhood keeps its value |
| Convolution.WeightedSumUniform | components/image-editor-dialog.tsx:98-106 | the weighted sum of equal values is that value times the sum of the weights |
| Convolution.OnePixelVanishes | components/image-editor-dialog.tsx:84 | as written, a 1x1 opaque white image comes out transparent black |
| Convolution.ConvolvedKeepingBorder | components/image-editor-dialog.tsx:81-115 | the border-keeping convolution has the input's size |
| Convolution.KeptBorderAt | components/image-editor-dialog.tsx:81-115 | with the border kept, border pixels equal the source and interior pixels are convolved as before |
| Convolution.NarrowIsKept | components/image-editor-dialog.tsx:92-93 | with the border kept, an image with no interior comes out unchanged |
| EditorView.ZoomRoundTrip | components/image-editor-dialog.tsx:362-365 | zooming out undoes zooming in and the reverse, and each strictly changes a positive scale in its direction |
| EditorView.PannedTelescopes | components/image-editor-dialog.tsx:286-290 | a drag through any pointer path moves the offset by the final pointer minus the start pointer |
| EditorView.Fit | components/image-editor-dialog.tsx:168-175 | the drawn image keeps the image's aspect ratio and is centred on the canvas centre plus the pan offset |
| EditorView.ContainScalePositive | components/image-editor-dialog.tsx:170 | the contain scale `min(W / iw, H / ih)` is positive |
| EditorView.FitContains | components/image-editor-dialog.tsx:168-175 | at scale 1 with no pan, the image lies inside the canvas and touches it on one axis |
| EditorView.Editor.constructor | components/image-editor-dialog.tsx:41-45 | the initial view: scale 1, offset (0, 0), no drag, not selecting, no selection |
| EditorView.Editor.ResetView | components/image-editor-dialog.tsx:66-70 | scale 1, offset (0, 0), no selection; drag and the select toggle untouched |
| EditorView.Editor.ZoomIn | components/image-editor-dialog.tsx:362 | multiplies the scale by 1.1 and changes nothing else |
| EditorView.Editor.ZoomOut | components/image-editor-dialog.tsx:365 | divides the scale by 1.1 and changes nothing else |
| EditorView.Editor.ToggleSelecting | components/image-editor-dialog.tsx:348 | flips the select toggle and changes nothing else |
| EditorView.Editor.ClearRect | components/image-editor-dialog.tsx:353 | drops the selection and changes nothing else |
| EditorView.Editor.MouseDown | components/image-editor-dialog.tsx:280-285 | records the drag start; in select mode it also starts an empty selection at the canvas point |
| EditorView.Editor.MouseMove | components/image-editor-dialog.tsx:286-295 | no drag: nothing changes; pan mode: the offset moves by the pointer delta and the drag restarts there; select mode: only the selection's w and h change, to pointer minus anchor |
| EditorView.Editor.MouseUp | components/image-editor-dialog.tsx:296 | ends the drag and changes nothing else |
| EditorExport.JsRound | components/image-editor-dialog.tsx:141 | `Math.round` gives the integer within one half of the value, upwards on a tie |
| EditorExport.CssFilterFor | components/image-editor-dialog.tsx:138-157 | the filter list is empty ("none") exactly for no effect, pixelate and sharpen, and has at most two filters |
| EditorExport.FilterParameters | components/image-editor-dialog.tsx:143-153 | grayscale and sepia amounts are at most 1 and reach 1 from 100 on; brightness, contrast and saturate exceed 1 for a positive amount; glow is blur followed by brightness at half the amount |
| EditorExport.BlockSize | components/image-editor-dialog.tsx:203 | the pixel block is at least 4, and half the intensity rounded down from intensity 8 upwards |
| EditorExport.DownscaleTarget | components/image-editor-dialog.tsx:120-121 | the small canvas's extent is at least 1, the number of whole blocks when a block fits, and at most the region's extent |
| EditorExport.SharpenKernel | components/image-editor-dialog.tsx:207-208 | the sharpen kernel has nine weights summing to 1 for every strength, so a divisor of 1 is kept |
| EditorExport.SharpenKeepsUniform | components/image-editor-dialog.tsx:204-209 | sharpening keeps an interior pixel whose 3x3 neighbourhood is uniform |
| EditorExport.CaptionFor | components/image-editor-dialog.tsx:225-230 | the caption font is at least 24 px and 1/24 of the width for wide images, the stroke at least 3, and the anchor at 4% and 10% inside the canvas |
| EditorExport.StripExtension | components/image-editor-dialog.tsx:256 | removing the extension leaves a prefix of the name |
| EditorExport.ExportName | components/image-editor-dialog.tsx:256 | the export name begins with "edited-" and ends with ".png" |
| EditorExport.StripsExtension | components/image-editor-dialog.tsx:256 | exactly one trailing ".ext" is removed when `ext` is non-empty and has no dot |
| EditorExport.KeepsName | components/image-editor-dialog.tsx:256 | a name without a dot, or ending in a dot, is kept whole |
| EditorExport.Trunc | components/image-editor-dialog.tsx:205 | the canvas integer conversion truncates towards zero |
| EditorExport.Region | components/image-editor-dialog.tsx:200 | with no selection the region is the whole image (0, 0, width, height); otherwise it is the selection unchanged, its raw anchor and extents each truncated, even where the extents are negative |
| EditorExport.ExportPlan | components/image-editor-dialog.tsx:194-253 | the export fails exactly when an effect meets a zero-extent region, or a filter or the upscale meets an empty canvas; otherwise it runs one step per chosen effect, non-blank caption and upscale, with the 2x sharpened upscale last |
| EditorExport.PlainExportIsEmpty | components/image-editor-dialog.tsx:211-234 | no effect, a blank caption and no upscale plan no drawing at all |
| EditorExport.SharpenedAsWritten | components/image-editor-dialog.tsx:204-210 | sharpening as written, read at the normalised rectangle and written back at the raw anchor, keeps the bitmap's size |
| EditorExport.Sharpened | components/image-editor-dialog.tsx:204-210 | sharpening written back where it was read keeps the bitmap's size |
| EditorExport.AnchorAgrees | components/image-editor-dialog.tsx:205-210 | for a selection drawn down and to the right the two agree |
| EditorExport.SharpenedIgnoresDirection | components/image-editor-dialog.tsx:205-210 | the corrected sharpen does not depend on the direction the selection was drawn in |
| EditorExport.SharpenedAt | components/image-editor-dialog.tsx:204-210 | with the corrected sharpen, pixels outside the region are unchanged and pixels inside are the convolution of the region's crop |
| EditorExport.SharpenedAsWrittenKeepsOutside | components/image-editor-dialog.tsx:205-210 | the sharpen step as written leaves every pixel outside the rectangle pasted at the raw anchor unchanged |
| EditorExport.UpLeftSelectionMissesCanvas | components/image-editor-dialog.tsx:205-210 | a selection drawn up and to the left over a white 3x3 image leaves pixel 0 white as written, where the corrected sharpen blackens it |
| EditorExport.AfterEffect | components/image-editor-dialog.tsx:202-221 | the effect step keeps the bitmap's size: no effect keeps the pixels, sharpen is `SharpenedAsWritten` at strength `SharpenStrength(intensity)`, and pixelate or a filter is the browser's drawing of the current bitmap |
| EditorExport.Edited | components/image-editor-dialog.tsx:202-234 | the caption is drawn on the bitmap the effect step left, and only for a non-blank text; the size is kept |
| EditorExport.Upscaled | components/image-editor-dialog.tsx:238-251 | the upscaled bitmap is 2 * width by 2 * height |
| EditorExport.ApplyAndExport | components/image-editor-dialog.tsx:194-258 | the export exists exactly when the plan does, is named `ExportName`, and holds either `Edited` of the base bitmap at the base size or `Upscaled` of that same edited bitmap at twice the size |
| EditorExport.ApplyEffect | components/image-editor-dialog.tsx:202-221 | the canvas's bitmap becomes `AfterEffect` of the bitmap before it |
| EditorExport.CaptionStep | components/image-editor-dialog.tsx:223-234 | a blank text leaves the bitmap unchanged; any other has the caption drawn over the current bitmap |
| EditorExport.UpscaleCopy | components/image-editor-dialog.tsx:238-253 | the 2x canvas ends holding `Upscaled` of the bitmap it was drawn from |
| EditorExport.SharpenCaptionUpscale | components/image-editor-dialog.tsx:204-251 | a sharpened, captioned 2x export is the 2x sharpen of the resampled caption drawn on the sharpened bitmap: each step works on the previous step's output |
| EditorExport.UpscaledBorder | components/image-editor-dialog.tsx:247-251 | the 2x output's border ring is transparent black and its interior alpha is the resampled alpha |
| EditorExport.PlainExportIsIdentity | components/image-editor-dialog.tsx:200-234 | no effect and a blank caption export the base pixels unchanged, whatever the browser would draw |
| EditorExport.ImageRegion | components/image-editor-dialog.tsx:168-175 | a preview selection mapped into image pixels scales its extents by image size over drawn size |
| EditorExport.ImageRegionOfFrame | components/image-editor-dialog.tsx:168-175 | the preview rectangle where the image is drawn maps to the whole image |
| EditorExport.PreviewSelectionIsNotImageSelection | components/image-editor-dialog.tsx:200 | on a 1024x576 preview of a 2048x1152 image, the preview's top-left quarter (0, 0, 512, 288) is used as image pixels (0, 0, 512, 288), whereas it shows image region (0, 0, 1024, 576) |
| ChatPage.KindOf | app/chat/page.tsx:51-59 | "image/", "video/" and "audio/" types map to their kind, and anything else is an image |
| ChatPage.Attachments | app/chat/page.tsx:95-105 | one attachment per file, in order, with that file's kind and name |
| ChatPage.WithReply | app/chat/page.tsx:128 | only the message with the id changes: it gets the text and stops streaming |
| ChatPage.WithText | app/chat/page.tsx:320 | only the message with the id changes: it gets the partial text |
| ChatPage.WithMessage | app/chat/page.tsx:114-115 | every message with the id is replaced by the new one and the rest are kept |
| ChatPage.SafeText | app/chat/page.tsx:124-127 | a blank reply becomes the fixed apology, any other is kept, and the result is never blank |
| ChatPage.FindById | app/chat/page.tsx:133 | finds a message with that id, or shows there is none |
| ChatPage.LastUserText | app/chat/page.tsx:134 | the text of the last user message, present exactly when there is a user message |
| ChatPage.LastTurn | app/chat/page.tsx:131-140 | the saved turn is a user entry and the assistant's safe text, empty exactly when the assistant or a user message is missing |
| ChatPage.Without | app/chat/page.tsx:541 | removing a pending attachment drops exactly those with that id |
| ChatPage.WithoutAppend | app/chat/page.tsx:541 | removal works piece by piece over concatenated lists, so the kept attachments keep their order |
| ChatPage.WithoutCounts | app/chat/page.tsx:541 | every attachment with another id is kept exactly as many times as it occurs, and none with the id is left |
| ChatPage.WithoutAbsent | app/chat/page.tsx:541 | removing an absent id changes nothing |
| ChatPage.TranscriptSnoc | app/chat/page.tsx:351 | the transcript grows by a blank line and "You: "/"TPyaar: " plus the new message |
| ChatPage.TranscriptSingle | app/chat/page.tsx:614 | a one-message transcript is that message's line, with no separator |
| ChatPage.CommandPromptIsRest | app/chat/page.tsx:184 | a command's prompt is the input after the prefix and the white space following it |
| ChatPage.SentAdultFlag | app/chat/page.tsx:302 | `adultAccepted` is set only with adult content allowed in bf or gf mode, and never without the consent value it is computed from (as written, the one the submit handler closed over) |
| ChatPage.IntendedAdultFlag | app/chat/page.tsx:176-180 | computed from the consent stored after the gate, the flag holds exactly when adult content is allowed and the mode is bf or gf |
| ChatPage.StaleConsentFlag | app/chat/page.tsx:302 | on every submit that passes the gate, the flag sent never exceeds the intended one, and the two differ exactly when adult content is allowed, the mode is bf or gf, no consent was stored and the user has just confirmed |
| ChatPage.Turns | app/chat/page.tsx:303 | the request history is each message's role and text, in order |
| ChatPage.ImageReply | app/chat/page.tsx:197-205 | the text is never empty and never the "Generating image…" placeholder unless the endpoint sent that as its error; a data URL is shown as `![image](url)` with the URL intact; without one the error is shown |
| ChatPage.VideoReply | app/chat/page.tsx:226-234 | the text is never empty and never the "Generating video…" placeholder unless sent as the error; "Video: " plus the URI, else plus the data URL, else the error |
| ChatPage.UserMessage | app/chat/page.tsx:245-250 | the user message carries the input, and the pending attachments only when there are any |
| ChatPage.Chat.constructor | app/chat/page.tsx:81-90 | the page starts with the stored messages, mode, language, consent and generator toggle, an empty input and no attachments |
| ChatPage.Chat.OnFilesSelected | app/chat/page.tsx:92-107 | no file list: nothing changes; otherwise the new attachments are appended and nothing else changes |
| ChatPage.Chat.ToggleSpeak | app/chat/page.tsx:112-122 | nothing changes for user or streaming messages; otherwise only that message's `tts` flips |
| ChatPage.SubmittedTurn | app/chat/page.tsx:131-140 | the render a submission closes over holds no message with the placeholder's id, so no turn is found there; in the messages the submission produced, the turn is the user's input and the reply |
| ChatPage.Chat.FinalizeAssistant | app/chat/page.tsx:123-145 | as written: the message gets its safe text and stops streaming; when signed in and not over quota, the turn looked up in the rendered messages the handler closed over is handed to saving |
| ChatPage.Chat.FinalizeAssistantIntended | app/chat/page.tsx:123-145 | as intended: the same update, with the turn looked up in the messages the update applies to |
| ChatPage.Chat.RemovePending | app/chat/page.tsx:541 | drops the pending attachments with the id and changes nothing else |
| ChatPage.Chat.ClearMessages | app/chat/page.tsx:623 | empties the message list and changes nothing else |
| ChatPage.Chat.HandleSubmit | app/chat/page.tsx:172-348 | blank input with no attachments, or refused consent, changes nothing and sends nothing; otherwise consent is recorded, and either a typed command adds a user message and a placeholder and requests media, or the message is sent: canned reply for non-image attachments, image analysis for images, else a chat request with the whole history and the stale consent flag (`SentAdultFlag` of the consent before the gate); the input and attachments are then cleared |
| ChatPage.Chat.HandleSubmitIntended | app/chat/page.tsx:172-348 | the same outcomes, with the chat request carrying `IntendedAdultFlag` |
| ChatPage.Chat.ConsentGate | app/chat/page.tsx:176-180 | the gate passes exactly when it does not block: adult content off, a normal mode, stored consent, or a confirmed dialog; a confirmed dialog stores consent, and nothing else changes |
| ChatPage.Chat.Dispatch | app/chat/page.tsx:182-304 | a typed `/img:` or `/video:` command when those are enabled, else an ordinary message carrying the given flag; consent is untouched |
| ChatPage.Chat.SendCommand | app/chat/page.tsx:183-240 | a typed command appends the user message and a streaming placeholder, and requests the command's prompt |
| ChatPage.Chat.SendMessage | app/chat/page.tsx:242-304 | appends the user message and the canned, analysing or empty streaming reply, builds the matching request, and clears input and attachments |
| ChatPage.ErrorText | app/chat/page.tsx:207 | a failed command's text is "Image error: " or "Video error: " followed by the error message, or "Unknown" when it is empty; it is never blank, so `finalizeAssistant` keeps it as it is |
| ChatPage.Chat.FailCommand | app/chat/page.tsx:206-210 | a typed command whose request threw: the placeholder gets the error text and stops streaming, the turn is looked up in the messages the handler closed over, and the input is cleared; nothing else changes |
| ChatPage.Chat.CompleteImage | app/chat/page.tsx:197-209 | the placeholder gets `ImageReply` of the endpoint's answer and stops streaming, the input is cleared, and nothing else changes |
| ChatPage.Chat.CompleteVideo | app/chat/page.tsx:226-238 | the placeholder gets `VideoReply` of the endpoint's answer and stops streaming, the input is cleared, and nothing else changes |
| ChatPage.Prefixed | app/chat/page.tsx:285 | a failure text is its prefix followed by the error message, or the stand-in for an empty one; it is never blank, so `finalizeAssistant` keeps it |
| ChatPage.SafeFallback | app/chat/page.tsx:283 | with a visible fallback, `finalizeAssistant` shows the fallback for an empty text, and otherwise what `safeText` makes of the text |
| ChatPage.Chat.CompleteAnalysis | app/chat/page.tsx:282-283 | the analysing placeholder gets the returned text, or "No description returned." for an empty one, and stops streaming; the turn is looked up in the messages the handler closed over; nothing else changes |
| ChatPage.Chat.FailAnalysis | app/chat/page.tsx:284-285 | a thrown analysis leaves "Image analysis error: " and the message, or "Unknown", in the placeholder; nothing else changes |
| ChatPage.Chat.RefuseChat | app/chat/page.tsx:307-311 | a response that is not ok or has no body leaves "Sorry, I couldn't process that. " and its text in the placeholder; nothing else changes |
| ChatPage.Chat.CompleteRetry | app/chat/page.tsx:324-342 | the `forceSimple` retry's text goes into the placeholder, or the fixed apology when it is empty or blank; nothing else changes |
| ChatPage.Chat.FailChat | app/chat/page.tsx:345-346 | a thrown chat request leaves "Error: " and the message, or "Unknown error", in the placeholder; nothing else changes |
| ChatPage.Chat.StreamReply | app/chat/page.tsx:313-323 | the accumulated text is the chunks concatenated, each chunk updates the placeholder, and a retry is asked exactly when the text is blank |
| ChatPage.ConcatSnoc | app/chat/page.tsx:319 | one more chunk appends its text |
| ChatPage.StreamStep | app/chat/page.tsx:319-320 | showing the text so far and then one more chunk equals showing the longer prefix |
| ChatPage.WithTextTwice | app/chat/page.tsx:320 | a later partial text overrides an earlier one |
| ChatRoute.Clamp | app/api/chat/route.ts:51-54 | at most 24 messages: all of them when there are few enough, else the last 24 in order |
| ChatRoute.ClampIdempotent | app/api/chat/route.ts:51-54 | clamping twice is clamping once |
| ChatRoute.LastN | app/api/chat/route.ts:57 | `slice(-n)`: the last n elements, or all of them |
| ChatRoute.SimplePromptClamped | app/api/chat/route.ts:57 | `simpleText` clamping the already clamped history again gives the same prompt as the unclamped history |
| ChatRoute.SimplePromptFallback | app/api/chat/route.ts:56-62 | the fallback prompt "Respond helpfully." is used exactly when there is no history; otherwise the transcript starts with the first of the last up to 8 clamped messages |
| ChatRoute.ToModelMessages | app/api/chat/route.ts:67-72 | one system entry holding the prompt, then one entry per history message with its role and content, and no other system entry |
| ChatRoute.PromptLines | app/api/chat/route.ts:48 | the system prompt has six lines |
| ChatRoute.SystemPromptLines | app/api/chat/route.ts:21-49 | persona, language line, safety, adult clause, date line and meta, joined by newlines in that order |
| ChatRoute.PromptLinesJoined | app/api/chat/route.ts:48 | joining six lines with "\n" puts one newline between each |
| ChatRoute.AdultEnabled | app/api/chat/route.ts:102-103 | the system prompt carries the adult clause exactly when the server allows it and the request accepted it, and the refusal clause otherwise |
| ChatRoute.LastUser | app/api/chat/route.ts:89-93 | the lowercased content of the last user message, or "" when there is none |
| ChatRoute.AsksDateExamples | app/api/chat/route.ts:94 | "aaj ki date" and "today's date?" ask for the date |
| ChatRoute.TryModels | app/api/chat/route.ts:119 | strict: just the model; otherwise "gemini-2.5-flash", the model, "gemini-1.5-pro", "gemini-1.5-flash" |
| ChatRoute.FirstAnswer | app/api/chat/route.ts:121-137 | the first model, in order, that streams or whose prompt-error fallback returns text decides the reply: its stream, or the fallback text as JSON; there is none exactly when every model fails without a usable fallback |
| ChatRoute.StrictTriesOne | app/api/chat/route.ts:119-137 | in strict mode the outcome depends only on the one model tried |
| ChatRoute.OneShotModels | app/api/chat/route.ts:121-137 | each model re-asked with a one-shot call threw a prompt or role error; when no model answers, every such model is re-asked |
| ChatRoute.RunModels | app/api/chat/route.ts:121-137 | the loop's result is `FirstAnswer`, and it re-asks exactly the `OneShotModels`, in order |
| ChatRoute.AskModels | app/api/chat/route.ts:118-147 | the first answer of the fallback models, else the closing one-shot call's text or the "Provider issue" text; the one-shot calls made are the re-asked models, then the requested model when all failed, each with the system prompt and the transcript prompt |
| ChatRoute.Post | app/api/chat/route.ts:74-148 | no key: the setup text; a date question: the date answer; neither makes a call. `forceSimple`: one one-shot call, and its text or the "Temporary issue" text; otherwise as `AskModels` over the clamped history. Every one-shot call is sent the system prompt and the `simpleText` prompt of the history |
| StoryboardRoute.SysPromptLines | app/api/video/storyboard/route.ts:12-28 | persona, caption language and instruction, one per line |
| StoryboardRoute.Intro | app/api/video/storyboard/route.ts:46 | "Intro: " plus the prompt's first 60 scalar values plus "...", at most 70 scalar values |
| StoryboardRoute.NoKeyFrames | app/api/video/storyboard/route.ts:44-52 | without a key: four frames, the first captioned with the intro |
| StoryboardRoute.DefaultFrames | app/api/video/storyboard/route.ts:103-110 | four default frames, the first captioned with the intro |
| StoryboardRoute.RateLimitedFrames | app/api/video/storyboard/route.ts:68-73 | four rate-limit frames |
| StoryboardRoute.ErrorFrames | app/api/video/storyboard/route.ts:80-85 | four frames "Scene 1" to "Scene 4": the error note, then the error message or "Unknown error" for an empty one, then the retry note and the tip to shorten the prompt |
| StoryboardRoute.JsonSlice | app/api/video/storyboard/route.ts:95-97 | with both brackets present, the text from the first '[' to the last ']' inclusive (empty if they are out of order); otherwise the whole text |
| StoryboardRoute.JsonSliceOfWrapped | app/api/video/storyboard/route.ts:95-97 | prose around one JSON array is cut away exactly |
| StoryboardRoute.Normalize | app/api/video/storyboard/route.ts:112-116 | fewer than 4 frames gain one "Scene 5" frame, 4 to 6 are kept, more than 6 are cut to the first 6 |
| StoryboardRoute.Parsed | app/api/video/storyboard/route.ts:92-110 | the frames parsed from the bracketed slice when parsing succeeds with at least one frame, else the default frames; never empty |
| StoryboardRoute.FirstAttempt | app/api/video/storyboard/route.ts:42-90 | in strict mode only the first model is asked: its text, else the canned frames for its error; otherwise the first model that answers gives the text, and when none does the last model's error gives the canned frames; no models means no attempt |
| StoryboardRoute.TryModels | app/api/video/storyboard/route.ts:59-90 | the loop's result is `FirstAttempt` |
| StoryboardRoute.FromText | app/api/video/storyboard/route.ts:92-116 | the frames are the parsed frames normalised to between 2 and 6 |
| StoryboardRoute.Post | app/api/video/storyboard/route.ts:39-119 | no key: the no-key frames; a rate limit: the rate-limit frames; another error: the error frames; otherwise the normalised parsed frames; always 2 to 6 frames |
| HistoryStore.BearerToken | app/api/history/save/route.ts:15-17 | a token exists exactly when the header starts with "Bearer " and has more after it, and then the header is "Bearer " plus the token |
| HistoryStore.BearerRoundTrip | app/api/history/list/route.ts:8-10 | the token written after "Bearer " is the token read back |
| HistoryStore.BytesAppend | app/api/history/save/route.ts:32 | byte sizes add up over concatenated rows |
| HistoryStore.OfUserAppend | app/api/history/list/route.ts:24-27 | selecting a user's rows distributes over concatenation |
| HistoryStore.MatchingIsBySession | app/api/history/delete-session/route.ts:20-24 | selecting by user and session at once equals selecting the user's rows and then the session's |
| HistoryStore.UnmatchedAccounts | app/api/history/delete-session/route.ts:25-28 | a user's byte size before deletion is the remaining rows' size plus the deleted rows' size |
| HistoryStore.UnmatchedKeepsOthers | app/api/history/delete-session/route.ts:28 | deleting a session of one user leaves every other user's rows unchanged |
| HistoryStore.SessionsWithout | app/api/history/delete-session/route.ts:29 | the remaining sessions are exactly the old ones other than that user's session with that id |
| HistoryStore.SessionsOf | app/api/history/list/route.ts:16-19 | the sessions listed are exactly those of the user |
| HistoryStore.Upsert | app/api/history/save/route.ts:81-88 | the usage write changes only the acting user's entry; it sets the value when the write succeeds and either the select found the row or there is none; a failed write, or an insert beside a row the select missed, changes nothing |
| HistoryStore.Store.WriteUsage | app/api/history/save/route.ts:81-88 | the usage table becomes `Upsert` of the old one, and sessions and rows are unchanged |
| HistoryStore.Store.constructor | app/api/history/save/route.ts:35-40 | the store starts empty, so every user's usage is 0 |
| HistorySave.TitleSource | app/api/history/save/route.ts:56 | the title source is the title, else the first message's content, else "New Chat", and is never empty |
| HistorySave.Title | app/api/history/save/route.ts:56 | the title is the source's first 80 scalar values, non-empty |
| HistorySave.RowsFor | app/api/history/save/route.ts:69-74 | one row per message, in order, tagged with the session and the user |
| HistorySave.RowsForAccounts | app/api/history/save/route.ts:32 | the new rows add `newBytes` to the user's byte size and nothing to anyone else's |
| HistorySave.SaveAccounts | app/api/history/save/route.ts:69-88 | after inserting, each user's byte size grows by their own new bytes only |
| HistorySave.InsertRows | app/api/history/save/route.ts:69-78 | appends the request's rows, adding their bytes to the acting user's byte size and nothing to anyone else's |
| HistorySave.Commit | app/api/history/save/route.ts:69-90 | appends the rows and writes current plus new bytes as the usage; usage stays within the quota; other users stay accounted, the acting user too when the write lands on their row, and a write that fails leaves them short by the new bytes |
| HistorySave.Save | app/api/history/save/route.ts:13-93 | no token or user: 401; no messages: 400; over 100 MiB, counting a failed usage select as 0: 409 with the positive excess and no change; session or row insert errors: 400; otherwise the new session (titled) and the rows are stored, the reply echoes current plus new bytes even when the unchecked usage write fails; usage never passes the quota; accounted users stay accounted when the usage select and write succeed, and a failed write un-accounts the saving user |
| HistoryList.SessionIds | app/api/history/list/route.ts:30-36 | the sessions met, each listed once |
| HistoryList.SessionIdsMet | app/api/history/list/route.ts:30-36 | the sessions listed are exactly those some row belongs to |
| HistoryList.SumOverUpdate | app/api/history/list/route.ts:35 | updating one session's size changes the sum over distinct sessions by the difference |
| HistoryList.SumOverFresh | app/api/history/list/route.ts:35 | a session not yet met does not affect the sum |
| HistoryList.AggregateStep | app/api/history/list/route.ts:33-35 | one more row adds its bytes to the total and to its own session's size, keeping the total equal to the sum of the sizes |
| HistoryList.Aggregate | app/api/history/list/route.ts:29-36 | the loop's total is the byte size of all rows read, each session's size is the byte size of its rows, and the total equals the sum of the sizes |
| HistoryList.List | app/api/history/list/route.ts:6-49 | no token or user: 401; query errors: 400; otherwise one entry per session of the user, in order, sized by that session's bytes (0 when it has none), the total of the user's bytes, which is the stored usage for an accounted user, and the 100 MiB limit |
| HistoryDelete.Decremented | app/api/history/delete-session/route.ts:38 | `max(0, current - bytes)`: never more than the current usage, the difference when it is positive, otherwise 0 |
| HistoryDelete.RemoveSession | app/api/history/delete-session/route.ts:20-43 | the freed bytes are those of the user's rows in the session (0 when the select fails); the rows and the session are deleted when their deletes succeed; the new usage is the decrement of the stored usage (of 0 when its select fails), written by the unchecked update or insert |
| HistoryDelete.DeleteSession | app/api/history/delete-session/route.ts:7-48 | no token: 401; no user: the crash reply; no session id: 400; otherwise the reply gives the freed bytes and the decremented usage, and the tables change as `RemoveSession` says; usage stays under the quota; accounted users stay accounted when every call succeeds, other users always; a failed select before a successful delete un-accounts the user |
| AnalyzeImageRoute.LastMarker | app/api/analyze-image/route.ts:89 | the last ";base64," occurrence after "data:" and one character, or none |
| AnalyzeImageRoute.ParseDataUrl | app/api/analyze-image/route.ts:89-94 | a match is "data:" + mime + ";base64," + data on one line, with a non-empty mime and the marker split at its last occurrence; there is no match exactly when the prefix, the single line or the marker is missing |
| AnalyzeImageRoute.DataUrl | app/api/media/generate-image/route.ts:64 | the data URL starts with "data:" and is as long as its parts together |
| AnalyzeImageRoute.ParseDataUrlRoundTrip | app/api/analyze-image/route.ts:89-94 | parsing a data URL built from a non-empty one-line mime and one-line data with no marker gives them back |
| AnalyzeImageRoute.ParseDataUrlSplitsAtLastMarker | app/api/analyze-image/route.ts:89-94 | when the data holds the marker, the mime swallows everything up to the last marker |
| AnalyzeImageRoute.SystemPromptIsJoin | app/api/analyze-image/route.ts:10-28 | the prompt is persona, language line and safety joined by newlines |
| AnalyzeImageRoute.Task | app/api/analyze-image/route.ts:96 | the instruction is the prompt, else the default description request, and never empty |
| AnalyzeImageRoute.ContentTextParts | app/api/analyze-image/route.ts:96 | the content text is the system prompt, "\n\nTask: ", then the prompt or its default |
| AnalyzeImageRoute.JoinedTexts | app/api/analyze-image/route.ts:71-72 | the joined part texts are empty exactly when every part's text is absent or empty |
| AnalyzeImageRoute.Description | app/api/analyze-image/route.ts:71-74 | the description is the joined texts, else the fixed "No description" sentence |
| AnalyzeImageRoute.FirstPartNeverUsed | app/api/analyze-image/route.ts:71-74 | when the fixed sentence is used, the first part had no text |
| AnalyzeImageRoute.ReplyTextAsWritten | app/api/analyze-image/route.ts:58-68 | as written, a refused call's reply text is the Response object, which serialises as `{}` |
| AnalyzeImageRoute.RefusalText | app/api/analyze-image/route.ts:58-68 | a refusal mentioning rate or quota gives the limit reply, any other gives "Image analysis failed: " plus the body |
| AnalyzeImageRoute.ReplyText | app/api/analyze-image/route.ts:99-108 | the reply text is never empty: the refusal text for a refused call, the description for an answered one |
| AnalyzeImageRoute.QuotaRefusalIsLost | app/api/analyze-image/route.ts:102-103 | a "Quota exceeded" refusal reaches the client as `{}` where the limit reply was meant |
| AnalyzeImageRoute.FirstReply | app/api/analyze-image/route.ts:99-108 | a reply exists exactly when some model did not throw, and it is the reply text of the first call that did not throw |
| AnalyzeImageRoute.Asked | app/api/analyze-image/route.ts:99-108 | models are asked up to and including the first that does not throw |
| AnalyzeImageRoute.AskModels | app/api/analyze-image/route.ts:99-108 | the loop's reply is `FirstReply`, it sends one query per model asked, in order, and after a total failure the last error is the last model's |
| AnalyzeImageRoute.Post | app/api/analyze-image/route.ts:78-116 | no key: the setup note; no data URL match: the invalid-data reply, nothing sent; otherwise the parsed image and content text go to the two models in order, and the first reply or the unavailable note with the last error is returned |
| MediaShapes.FirstInline | app/api/media/generate-image/route.ts:60 | the first part with inline data, none exactly when no part has any |
| MediaShapes.FirstFileUri | app/api/media/generate-image/route.ts:70 | the file URI of the first part with file data, "" when there is none |
| MediaShapes.FoundIn | app/api/media/generate-image/route.ts:58-74 | inline data with a payload becomes a data URL with its media type or the endpoint's default; a link is returned exactly when there is no such inline data and the URI is non-empty |
| MediaShapes.StepOf | app/api/media/generate-image/route.ts:51-80 | a throw or refusal is a miss with its text; a response answers only with a data URL starting "data:" or a non-empty URI, and otherwise misses with the endpoint's "nothing" error |
| MediaShapes.Steps | app/api/media/generate-image/route.ts:51-81 | one outcome per candidate call, in order |
| MediaShapes.FirstAnswer | app/api/media/generate-image/route.ts:28-91 | the reply of the first candidate that answers; when none does, the 400 reply with the last error; every reply is the 400 or some step's answer |
| MediaShapes.FirstAnswerSent | app/api/media/generate-image/route.ts:28-91 | whatever the candidates meet, the loop ends with a 200 answer or the 400 with the endpoint's error |
| MediaShapes.Asked | app/api/media/generate-image/route.ts:28-82 | candidates are asked up to and including the first that answers |
| MediaShapes.MissStep | app/api/media/generate-image/route.ts:51-80 | a miss passes its error on as the last error and one more candidate is asked |
| MediaShapes.AnswerStep | app/api/media/generate-image/route.ts:62-74 | an answer is the reply and the last candidate asked |
| GenerateImageRoute.Dimension | app/api/media/generate-image/route.ts:17-19 | `Number(x) \|\| 1024`: NaN and 0 become 1024, anything else is kept |
| GenerateImageRoute.Dimensions | app/api/media/generate-image/route.ts:16-19 | width and height come from the pieces of the size split on 'x', and are never 0 |
| GenerateImageRoute.DimensionsOfWxH | app/api/media/generate-image/route.ts:16-19 | a size written "WxH" is read back as W and H |
| GenerateImageRoute.DefaultDimensions | app/api/media/generate-image/route.ts:16 | with no size the dimensions are 1024 by 1024 |
| GenerateImageRoute.Candidates | app/api/media/generate-image/route.ts:22-26 | the override or "imagen-3.0-generate-001", then "imagen-3.0", then "imagegeneration" |
| GenerateImageRoute.InlineOf | app/api/media/generate-image/route.ts:58-60 | the first generated image's inline data, else the first inline part |
| GenerateImageRoute.UriOf | app/api/media/generate-image/route.ts:68-70 | the first generated image's URI, else the first file part's URI |
| GenerateImageRoute.ImageDataUrlParses | app/api/media/generate-image/route.ts:64 | the image data URL parses back, in the analysis route, into its mime and data |
| GenerateImageRoute.SentGrows | app/api/media/generate-image/route.ts:29-49 | asking the next candidate extends the requests sent by one, in order |
| GenerateImageRoute.Generate | app/api/media/generate-image/route.ts:28-91 | the loop's reply is `FirstAnswer`, and it sends one request per candidate asked, in order, with the prompt and dimensions |
| GenerateImageRoute.Post | app/api/media/generate-image/route.ts:9-95 | no key: 400 and nothing sent; otherwise the candidates are asked in order with the parsed dimensions, and the reply is the first answer or the 400 with the last error; every reply is one the page can show |
| GenerateImageRoute.PageShowsReply | app/chat/page.tsx:197-205 | for every reply the route sends, the page shows the image for a data URL, "No image returned" for a URI, and the error otherwise, never the placeholder |
| GenerateVideoRoute.DurationSeconds | app/api/media/generate-video/route.ts:15-35 | the duration in seconds always lies in [3, 30]: 8 by default, the floor inside the range, 3 below it and 30 above it |
| GenerateVideoRoute.DurationIdempotent | app/api/media/generate-video/route.ts:35 | clamping an already clamped duration changes nothing |
| GenerateVideoRoute.Candidates | app/api/media/generate-video/route.ts:18-23 | the override or "veo-3.0", then "veo-2.5", "veo-2.0", "video-2.0" |
| GenerateVideoRoute.InlineOf | app/api/media/generate-video/route.ts:53 | only the first generated video's inline data counts |
| GenerateVideoRoute.UriOf | app/api/media/generate-video/route.ts:60-63 | the video's URI, else the first generated video's URI, else the first file part's URI |
| GenerateVideoRoute.PartsInlineIgnored | app/api/media/generate-video/route.ts:53 | a response whose parts hold inline data with a payload, but with no generated video and no URI, misses with "No video returned" |
| GenerateVideoRoute.SentGrows | app/api/media/generate-video/route.ts:26-44 | asking the next candidate extends the requests sent by one, in order |
| GenerateVideoRoute.Generate | app/api/media/generate-video/route.ts:25-84 | the loop's reply is `FirstAnswer`, and it sends one request per candidate asked, in order, with the prompt and the clamped duration |
| GenerateVideoRoute.Post | app/api/media/generate-video/route.ts:9-88 | no key: 400 and nothing sent; otherwise the four candidates are asked in order, and the reply is the first answer or the 400 with the last error; every reply is one the page can show |
| GenerateVideoRoute.PageShowsReply | app/chat/page.tsx:226-234 | for every reply the route sends, the page shows "Video: " and the data URL or URI, or the error, never the placeholder |
| Text.Trim | app/chat/page.tsx:125 | `trim()` is empty exactly for white-space-only text, and otherwise starts and ends with non-space |
| Text.TrimIsSlice | app/chat/page.tsx:125 | `trim()` is a slice of the text with only white space cut from either end |
| Text.Take | app/api/history/save/route.ts:56 | `slice(0, n)` is a prefix of at most n scalar values |
| Text.Split | app/api/media/generate-image/route.ts:17 | `split` gives at least one piece, none holding the separator |
| Text.JoinSplit | app/api/media/generate-image/route.ts:17 | joining the pieces of a split with the separator gives the text back |
| Text.SplitJoin | app/api/media/generate-image/route.ts:17 | splitting pieces joined by a separator they lack gives the pieces back |
| Text.ToLower | app/api/chat/route.ts:93 | `toLowerCase` keeps the length and lowers each character |
| Text.Utf8LengthAppend | app/api/history/save/route.ts:32 | UTF-8 byte lengths add up over concatenation |
| Text.Utf8LengthBounds | app/api/history/save/route.ts:32 | a text takes 1 to 4 bytes per character, and exactly one per character exactly when it is ASCII |

## Left out

- Floating point: JavaScript numbers are exact `real`s. Zoom, fit and kernel weights carry no rounding error. NaN is modelled only where the code tests for it (`Number(x) || 1024`).
- GenerateVideoRoute.DurationSeconds: the request's `duration` is taken to be a JSON number. The code passes it straight to `Math.floor` without testing it, so a non-number is coerced (`null` gives 3, a string its floor or NaN); such a body is treated as malformed and is not modelled.
- Browser drawing: the pixels produced by CSS filters, `imageSmoothingEnabled` resampling, pixelation's down-and-up scaling, `strokeText`/`fillText`, and the first `drawImage` of the image are inputs: `paint`, `caption` and `resample` are functions applied to the bitmap the step before left, and the base canvas is given. Only the arithmetic around them, the convolution's byte work, and `getImageData`/`putImageData` on an exact bitmap are modelled.
- Raster.Canvas: the bitmap is modelled as exact unpremultiplied RGBA, so a `putImageData` followed by a `getImageData` returns the bytes written. A browser may store premultiplied alpha, and then colour bytes of pixels that are not fully opaque can change on that round trip. The sharpen step can write colour into pixels with alpha 0, so the model does not capture that loss.
- PNG encoding (`canvasToBlob`), `onApply`, closing the dialog and the image loading effect are browser I/O and are not modelled.
- The preview `draw` is modelled only as its fit-to-canvas placement (`Fit`); the selection overlay stroke is drawing.
- `toCanvasCoords`: the canvas's bounding-box origin is a parameter. CSS scaling between the 1024x576 canvas and its on-screen size is not modelled.
- EditorExport.Trunc: the canvas conversion of coordinates to `long` is truncation with no 2^32 wrap-around, since selections never reach that size.
- Text.Utf8Length: strings are sequences of Unicode scalar values, so the UTF-16 lone surrogates that `Buffer.byteLength` counts as 3 bytes do not occur.
- Text.Take: counts Unicode scalar values, where JavaScript's `slice` counts UTF-16 code units. A character outside the Basic Multilingual Plane (an emoji) is one value here but two code units there, so `slice` can keep more text than the JavaScript code does, or cut a surrogate pair that the display then shows as a replacement character. The same holds for the title and the storyboard intro built on it.
- Text.ToLower: lowers only ASCII letters, where `toLowerCase` follows full Unicode case mapping.
- ChatRoute.AsksDate: the date regular expression is written as a predicate over occurrences, and only its two example inputs are proved. The date answer's locale text (`toLocaleDateString`, `Intl`) is a fixed value, and `nowLine()` is the `now` parameter.
- Asynchrony: `await`, streaming, `TextDecoder` and the interleaving of React state updates are not modelled. The stream is a sequence of decoded chunks.
- ChatPage.Chat.FinalizeAssistant: `overQuota` is read from the current state, whereas the code reads it, like `messages`, from the render the handler closed over.
- ChatPage.Chat.StreamReply: returns the retry decision; the retry request's body (`forceSimple: true` and the same history) is not built as a `Request` value, though its answer is handled by `Chat.CompleteRetry` and the server side by `ChatRoute.Post`.
- The chat page's `saveTurn` request, its 409 "over quota" handling, the history loading, the session manager, speech synthesis and recognition, clipboard copy, the download of the transcript, the lightbox and `localStorage` persistence are I/O. The transcript text itself is modelled.
- Provider calls (`streamText`, `generateText`, `fetch` to Google) are sequences of outcomes. Each outcome is a success with its JSON, a refusal with its body, or a throw with the text `String(e)` shows. Request URLs, `encodeURIComponent`, request payload JSON and the storyboard's `tryGenerate` prompt text are not modelled.
- `JSON.parse` of the storyboard text and of request bodies is a parameter, or the body is given already parsed. A malformed request body, and the routes' outer `catch` blocks, are not modelled.
- Authentication: the Supabase lookup of the token is the `user` parameter. The database is the in-memory `Store`. Every query's outcome is an input: the errors the code checks (save's two inserts, list's two selects) as error values, and the calls whose errors it never reads (save's usage select and write, every call of delete-session) as success flags, with the code's behaviour when they fail.
- HistoryList.List: sessions keep store order, not `updated_at` descending, and `created_at`/`updated_at` are not carried.
- HistoryDelete.DeleteSession: the order of the three writes (messages, session, usage) is not observable in the model; only the final state is stated.
- AnalyzeImageRoute.Post: a refused call's reply text is the intended `RefusalText`. The code as written sends the Response object itself, which serialises as `{}` (see Findings, and `ReplyTextAsWritten`).
- The sign-in, sign-up and token signing routes, the service worker and the markdown renderer are not part of this model.

## Findings

The editor and the chat page methods (`ApplyAndExport`, `HandleSubmit`, `FinalizeAssistant`) follow their
code as written, so they can be compared with it line by line. The corrected members beside them
(`HandleSubmitIntended`, `FinalizeAssistantIntended`, the corrected sharpen and convolution) state the
intended behaviour and carry its proofs. The analysis route's `Post` uses the corrected reply text.

| source | as written | input that shows it | evidently intended | confidence | as-written member | corrected member |
|---|---|---|---|---|---|---|
| components/image-editor-dialog.tsx:205-210 | `getImageData` reads the normalised rectangle, but `putImageData` writes the result back at the raw `region.x, region.y` | a 3x3 white image with a selection (3, 3, -3, -3), drawn up and to the left, sharpened | write back at the normalised corner, so the direction a selection is drawn in does not matter | not executed; high | EditorExport.SharpenedAsWritten, EditorExport.UpLeftSelectionMissesCanvas | EditorExport.Sharpened, EditorExport.SharpenedIgnoresDirection, EditorExport.SharpenedAt |
| components/image-editor-dialog.tsx:84, 92-93 | the output starts all zero and only interior pixels are written, so the border ring of every sharpened region and of the 2x upscale becomes transparent black | a 1x1 opaque white image convolved gives [0, 0, 0, 0] | copy border pixels from the source, so a sharpen does not blank the outer ring of the region it edits | not executed; medium | Convolution.Convolved, Convolution.BorderIsZero, Convolution.OnePixelVanishes | Convolution.ConvolvedKeepingBorder, Convolution.KeptBorderAt, Convolution.NarrowIsKept |
| components/image-editor-dialog.tsx:200, 170-175 | the selection is taken in preview-canvas coordinates and used unchanged on the full-resolution image | a 2048x1152 image previewed at 1024x576, unzoomed and unpanned; the selection (0, 0, 512, 288), the preview's top-left quarter, maps to image region (0, 0, 1024, 576), but the export edits image pixels (0, 0, 512, 288), a sixteenth of the image | map the selection through the fit placement into image pixels | not executed; high | EditorExport.Region, EditorExport.PreviewSelectionIsNotImageSelection | EditorExport.ImageRegion, EditorExport.ImageRegionOfFrame |
| app/chat/page.tsx:176-180, 302 | the consent just given is set through React state, which the same submit still reads as false | mode "bf", adult content allowed, no earlier consent, the user confirms | send `adultAccepted: true` on the submit that asked for and got consent | not executed; high | ChatPage.SentAdultFlag, ChatPage.Chat.HandleSubmit, ChatPage.StaleConsentFlag | ChatPage.IntendedAdultFlag, ChatPage.Chat.HandleSubmitIntended |
| app/api/analyze-image/route.ts:58-68, 102-103 | a refusal returns a `Response`, which is then put in `{ text }` and serialises as `{}` | a provider refusal with body "Quota exceeded" | reply with the limit sentence as text | not executed; high | AnalyzeImageRoute.ReplyTextAsWritten, AnalyzeImageRoute.QuotaRefusalIsLost | AnalyzeImageRoute.ReplyText, AnalyzeImageRoute.RefusalText |
| app/chat/page.tsx:131-133 | `finalizeAssistant` looks up the assistant message in `messages`, the list of the render whose `handleSubmit` is running, which was captured before the user message and the placeholder were added | any signed-in chat submit under quota: the placeholder's fresh id is not in the captured list, so `lastTwo` is empty and no turn is saved | look the turn up in the list that now holds the placeholder, so each finished turn is saved | not executed; high | ChatPage.Chat.FinalizeAssistant, ChatPage.SubmittedTurn | ChatPage.Chat.FinalizeAssistantIntended, ChatPage.SubmittedTurn |
