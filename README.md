# KhanViewer MainViewModel in Dafny

This project models `MainViewModel`, the view model behind the main page of
the Khan Academy viewer. It holds the groups and playlists shown on the page,
a "querying" flag for server queries, an error flag with its message, and a
guard that makes sure the catalog is loaded only once. It also does two
lookups:

- **GetVideo** resolves a video by playlist name and video name. It asks the
  local disk cache first. On a miss it searches the in-memory playlists, and
  a video found there is saved back to disk.
- **GetPlaylist** returns the first playlist with a given name, after asking
  it to load its videos.

Files:

- `models.dfy` (`Models`): the value types `Video`, `Playlist` and `Group`.
- `catalog.dfy` (`Catalog`): the LINQ queries of the two lookups as
  functions over sequences. `Named` is `Where`, `FirstOrDefault` is the first
  element or null, `CatalogVideos` is `Where` then `SelectMany`, and
  `SingleOrDefault` is LINQ's `SingleOrDefault` with its three outcomes (the
  default, the single match, or an `InvalidOperationException`). The lemmas
  describe what the lookup returns in terms of positions in the catalog. A
  position is a playlist index and a video index, with the playlist named
  `playlistName` and the video named `name`.
- `local_storage.dfy` (`LocalStorage`): the disk cache as a map from
  (playlist name, video name) to a video, plus a ghost log of every
  `SaveVideo` call.
- `main_view_model.dfy` (`ViewModels`): the `MainViewModel` class and its
  `QueryingHandle`. Notifications are a ghost list of property names. Message
  boxes are a ghost list of messages. Calls to `PlaylistItem.Initialize` and
  `LoadVideos` are a ghost counter and a ghost list of playlist indices.
- `wrappers.dfy` (`Wrappers`): `Option`, which stands for a C# reference that
  may be null.

The model keeps the following behaviours of the code exactly as written, even
where a cache coordinator might be expected to behave otherwise:

- The catalog search pools the videos of *every* playlist with the requested
  name. It does not reject a duplicated playlist name.
- Two matching videos make `SingleOrDefault` throw inside the disk callback.
  The callback `result` is then never called (`Delivery.Faulted`), so there is
  no "called exactly once" guarantee in that case.
- `GetPlaylist` dereferences a missing playlist. Existence is therefore a
  precondition, not a checked error.
- `StartQuerying` and `StopQuerying` set one boolean. There is no reference
  count, and disposing the handle does nothing.
- No per-key deduplication of concurrent lookups exists.

## Model

| member | source | states |
|---|---|---|
| ViewModels.MainViewModel.GetVideo | KhanViewer.Metro/ViewModels/MainViewModel.cs:77-97 | A disk hit is delivered as is, with no save. On a miss the catalog lookup decides, stated both through `Lookup` and directly by catalog position. No matching position delivers null with no save. Exactly one matching position saves that video exactly once and delivers it. Two distinct matching positions fault, with no save and no delivery. |
| Catalog.Named | KhanViewer.Metro/ViewModels/MainViewModel.cs:89 | `Where(c => c.Name == playlistName)`, also used at line 71. The result is no longer than the catalog, and it is empty when no playlist has the name. NamedMember gives its exact membership. |
| Catalog.FirstOrDefault | KhanViewer.Metro/ViewModels/MainViewModel.cs:71 | `Where(..).FirstOrDefault()`. A playlist it returns is in the catalog and has the name. FirstOrDefaultIsFirst shows it is the first match, and that null means no playlist has the name. |
| Catalog.Flatten | KhanViewer.Metro/ViewModels/MainViewModel.cs:90 | `SelectMany(c => c.Videos)`. Every video of every playlist is in the result. |
| Catalog.CatalogVideos | KhanViewer.Metro/ViewModels/MainViewModel.cs:88-90 | `Where` then `SelectMany`. The result is empty when no playlist has the name. CatalogVideosMember gives its exact membership. |
| Catalog.Matches | KhanViewer.Metro/ViewModels/MainViewModel.cs:91 | The name predicate of `SingleOrDefault`, as a filter. The result is no longer than its input. MatchesMember gives its exact membership. |
| Catalog.Lookup | KhanViewer.Metro/ViewModels/MainViewModel.cs:88-91 | The memory-store query that GetVideo's contract is written in. A video it finds is one of the pooled videos and has the name. LookupNone, LookupUnique, LookupElement, LookupDuplicate and LookupDuplicateWitness characterise its three outcomes by position. |
| LocalStorage.Store.GetVideo | KhanViewer.Metro/ViewModels/MainViewModel.cs:79 | The disk lookup GetVideo starts with. It returns the cached video exactly when the key is on disk, and null otherwise. |
| LocalStorage.Store.SaveVideo | KhanViewer.Metro/ViewModels/MainViewModel.cs:93 | The write-back. The video is appended to the save log once, and the disk map is left as it was. |
| ViewModels.QueryingHandle.constructor | KhanViewer.Metro/ViewModels/MainViewModel.cs:125-128 | The handle keeps a reference to the view model that created it. |
| Catalog.SingleOrDefault | KhanViewer.Metro/ViewModels/MainViewModel.cs:91 | The result is the default exactly when no element has the name, the one match exactly when one element has it, and a throw exactly when two or more do. |
| Catalog.NamedMember | KhanViewer.Metro/ViewModels/MainViewModel.cs:89 | A playlist survives `Where` exactly when it is in the catalog and has the requested name. |
| Catalog.MatchesMember | KhanViewer.Metro/ViewModels/MainViewModel.cs:91 | A video survives the name filter of `SingleOrDefault` exactly when it is in the sequence and has the requested name. |
| Catalog.CatalogVideosMember | KhanViewer.Metro/ViewModels/MainViewModel.cs:88-90 | A video is in the flattened `Where`/`SelectMany` sequence exactly when it sits in some playlist with the requested name. |
| Catalog.MatchesAppend | KhanViewer.Metro/ViewModels/MainViewModel.cs:90-91 | Filtering by name distributes over the concatenation that `SelectMany` performs. |
| Catalog.LookupNone | KhanViewer.Metro/ViewModels/MainViewModel.cs:88-95 | The memory lookup yields null exactly when no playlist named `playlistName` holds a video named `name`. |
| Catalog.LookupUnique | KhanViewer.Metro/ViewModels/MainViewModel.cs:88-95 | When exactly one position across all playlists named `playlistName` holds a video named `name`, the lookup returns that video. |
| Catalog.LookupElement | KhanViewer.Metro/ViewModels/MainViewModel.cs:88-95 | Converse of LookupUnique: a found video sits at exactly one matching position. |
| Catalog.LookupDuplicate | KhanViewer.Metro/ViewModels/MainViewModel.cs:88-91 | Two distinct matching positions make the lookup throw. They may be in one playlist or in two playlists with the same name. |
| Catalog.LookupDuplicateWitness | KhanViewer.Metro/ViewModels/MainViewModel.cs:88-91 | Converse of LookupDuplicate: a throwing lookup has two distinct matching positions. |
| Catalog.CatalogMatchesUnique | KhanViewer.Metro/ViewModels/MainViewModel.cs:88-91 | With one matching position, the filtered catalog is the one-element sequence of that video. |
| Catalog.CatalogMatchesTwo | KhanViewer.Metro/ViewModels/MainViewModel.cs:88-91 | Two distinct matching positions leave at least two videos after filtering. |
| Catalog.FirstNamed | KhanViewer.Metro/ViewModels/MainViewModel.cs:71 | The index found names a playlist with the requested name, and every playlist before it has another name. The index is `|ps|` when no playlist has the name. |
| Catalog.FirstOrDefaultIsFirst | KhanViewer.Metro/ViewModels/MainViewModel.cs:71 | `Where(..).FirstOrDefault()` returns the playlist at the first matching index. It returns null exactly when no playlist has the name. |
| ViewModels.MainViewModel.GetPlaylist | KhanViewer.Metro/ViewModels/MainViewModel.cs:69-75 | Requires a playlist with the name. Returns the first such playlist and calls LoadVideos on exactly that one. The playlists are unchanged. |
| ViewModels.MainViewModel.LoadVideos | KhanViewer.Metro/ViewModels/MainViewModel.cs:72 | The call on the playlist at index `k` is recorded and nothing else changes. |
| ViewModels.MainViewModel.LoadData | KhanViewer.Metro/ViewModels/MainViewModel.cs:102-110 | Afterwards the data is marked loaded and Initialize has run exactly once overall. The collections grow only on the first call. |
| ViewModels.MainViewModel.Initialize | KhanViewer.Metro/ViewModels/MainViewModel.cs:108 | The call is counted, and the groups and playlists it reads are appended to the two collections. |
| ViewModels.LoadDataTwice | KhanViewer.Metro/ViewModels/MainViewModel.cs:102-110 | Two calls of LoadData run Initialize once and add the catalog once. |
| ViewModels.MainViewModel.SetError | KhanViewer.Metro/ViewModels/MainViewModel.cs:45-53 | The message is shown, `IsError` is true, `ErrorMessage` is the message, and the notifications grow by exactly `ErrorMessage` then `IsError`. |
| ViewModels.MainViewModel.NotifyPropertyChanged | KhanViewer.Metro/ViewModels/MainViewModel.cs:136-143 | The property name is appended to the notification log. |
| ViewModels.MainViewModel.StartQuerying | KhanViewer.Metro/ViewModels/MainViewModel.cs:61-67 | `Querying` becomes true, `Querying` is notified once, and a fresh handle bound to this view model is returned. |
| ViewModels.MainViewModel.StopQuerying | KhanViewer.Metro/ViewModels/MainViewModel.cs:114-119 | `Querying` becomes false and `Querying` is notified once. |
| ViewModels.QueryingHandle.Dispose | KhanViewer.Metro/ViewModels/MainViewModel.cs:130-133 | Nothing changes, so the `Querying` flag and the notifications stay as they were. |
| ViewModels.QueryingScope | KhanViewer.Metro/ViewModels/MainViewModel.cs:59-67 | Starting a query and disposing its handle in a `using` block leaves `Querying` true, with one notification. |
| ViewModels.MainViewModel.constructor | KhanViewer.Metro/ViewModels/MainViewModel.cs:16-20 | Both collections start empty and every flag starts false. The error message starts null and every log starts empty. |

## Left out

- `UIThread.MessageBox` (line 47) is modelled only as an entry in the ghost `alerts` log. The body of SetError writes that entry before the field updates, but `alerts` and `notifications` are separate logs, so no contract states the order of the message box relative to the notifications.
- SetError: a null `message` is not modelled. C# accepts `SetError(null)`, which would set `ErrorMessage` back to null; the model's message is always a string, so `ErrorMessage` is `Some(message)` after every call.
- `UIThread.Invoke` (line 65) marshals a notification to the UI thread. The model treats it as an immediate call.
- The `PropertyChanged` event and its handler (lines 55, 136-143) are modelled only as the ghost list of property names. A notification is recorded whether or not a handler is attached.
- `LocalStorage` is asynchronous disk I/O and is not part of this model. Its lookup is a synchronous map lookup, and its completion callback runs at once. `SaveVideo` is only recorded: its on-disk effect and the key a saved video is later found under belong to `LocalStorage`.
- The bodies of `PlaylistItem.Initialize` and `PlaylistItem.LoadVideos` are not part of this model. `Initialize` is modelled as appending parameters to the collections. `LoadVideos` is modelled as a log entry, so the videos it would fill in on a playlist object are not modelled. Both belong to `PlaylistItem` in the source; the model writes them as methods of `MainViewModel` that record these effects, and `Initialize` is meant to be called only from `LoadData`.
- `PlaylistItem` is a reference type in the source. The model holds playlists as values, so it does not capture aliasing between a returned playlist and the collection.
- `ObservableCollection` change events and the Windows Phone shell `#if` block (lines 7-9) are platform glue.
- A busy counter with reference counting and a per-key table of lookups in flight are not modelled. The source does not implement either (the TODOs at lines 63 and 116, and the commented-out call at line 132).
