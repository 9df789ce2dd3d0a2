# Movie Nexus backend — a Dafny model

This project models the core of the Movie-Recommendation-BE Django service ("Movie Nexus"):
its movie, rating, profile and playlist records, the recommendation service, the TMDb
normalisation and image-URL helpers, the Celery tasks that keep the movie table in sync
with TMDb, the view logic that decides who may read or change a rating or a playlist,
the serializers' validation rules, the genre filter, the genre-normalising signals, and
the two cache layers.

The model is organised by source file:

| module | file | models |
|---|---|---|
| `Models` | models.dfy | `apps/movies_api/models.py`: rows, `__str__`, `poster_url`, `is_accessible_by`, `movie_count`, the rating validators and the unique constraint |
| `Signals` | signals.dfy | `apps/movies_api/signals.py`: profile creation, genre lower-casing before save |
| `Recommendation` | recommendation.dfy | `services/recommendation_service.py` |
| `Tmdb` | tmdb.dfy | `services/tmdb_service.py`: key check, `normalize_movie_data`, image URLs |
| `Tasks` | tasks.dfy | `apps/movies_api/tasks.py`: the four Celery tasks, over a `MovieStore` class |
| `Views` | views.dfy | `apps/movies_api/views.py`: listings, query sets, permission outcomes, rating and playlist tables |
| `Serializers` | serializers.dfy | `apps/movies_api/serializers.py` |
| `Filters` | filters.dfy | `apps/movies_api/filters.py` |
| `RootCache` | cache_root.dfy | project-level `cache.py` |
| `AppCache` | cache_app.dfy | `apps/movies_api/cache.py` |
| `CacheStore` | cache_store.dfy | the cache backend both layers talk to: a `Store` class over a key/value map, and Redis `KEYS` patterns |
| `KeyArgs`, `Text`, `Sorting`, `JsonValue`, `Wrappers` | key_args.dfy, text.dfy, sorting.dfy, json.dfy, wrappers.dfy | shared helpers: call arguments, strings, Python's stable `sort(reverse=True)` and slicing, JSON values, `Option`/`Result` |

Code that mutates step by step is modelled as imperative Dafny:

- The Celery job loops, the score and statistics loops, the cache operations and the table updates are methods.
- Each method is proved against a function of its inputs or its old state.
- The properties are proved about those functions.
- State that the source changes in place is held by classes: `CacheStore.Store`, `Tasks.MovieStore`, `Views.RatingTable`, `Views.PlaylistTable`, `Serializers.ValidatedData` and `Signals.MovieInstance`/`ProfileInstance`/`Accounts`.

### The two cache layers

Both layers talk to the same store, but they build keys differently.

- **Project layer** (`cache.py`): namespaces every key with `nexus_movie:`, through `make_full_key`.
- **App layer** (`apps/movies_api/cache.py`):
  - `get_or_set` and `cached_query` write the raw key, unprefixed.
  - `invalidate_pattern` matches `nexus_movie:` + pattern.
  - Its `CacheKeys` produce `movie:detail:<id>`.
  - `invalidate_movie` deletes `movie_detail:<id>`, with an underscore.

The model states these facts as lemmas:

- `AppCache.RawDetailKeySurvives`: a raw key written by the app layer is never reached by its own invalidation.
- `AppCache.PrefixedDetailKeySurvives`: `invalidate_movie` does not delete the detail key, even in its prefixed form.
- `AppCache.PlaylistKeySurvivesUserInvalidation`: the app-level user invalidation never removes a user's playlist key, which the root layer does delete.
- The root-layer counterparts describe exactly which keys each invalidation reaches (`RootCache.MovieInvalidationReach`, `RootCache.UserInvalidationReach`).

### Playlist deletion by a non-owner

`PlaylistViewSet.destroy` answers a non-owner with `status.HTTP_FORBIDDEN`. No attribute of that name exists in Django REST framework's `status` module (the constant is `HTTP_403_FORBIDDEN`). So the view raises while building its response, and the client gets a server error. `Views.PlaylistDestroyOutcome` models that outcome as `ServerError` and leaves the playlist unchanged. `update` uses the correct constant and answers `Forbidden`.

## Model

| member | source | states |
|---|---|---|
| Models.MovieStr | Movie-Recommendation-BE/apps/movies_api/models.py:39-40 | the display string is the title followed by the release year in parentheses, or by "(N/A)" without a date; it starts with the title and ends in ')' |
| Models.PosterUrl | Movie-Recommendation-BE/apps/movies_api/models.py:42-47 | no URL exactly when the poster path is empty; otherwise the w500 image base followed by the path, which can be read back |
| Models.AddRating | Movie-Recommendation-BE/apps/movies_api/models.py:77-87 | a rating is stored exactly when its score is in 1..5 and the user has not rated that movie; an out-of-range score is refused as such; the stored table is the old one plus the new row |
| Models.AddRatingKeepsValid | Movie-Recommendation-BE/apps/movies_api/models.py:77-87 | accepted insertions keep every score in range and at most one rating per (user, movie) |
| Models.DuplicateRatingRefused | Movie-Recommendation-BE/apps/movies_api/models.py:87 | a second rating by the same user for the same movie is always refused |
| Models.MovieById | Movie-Recommendation-BE/apps/movies_api/models.py:8-37 | a found movie is in the table with the requested id; not found means no row has that id |
| Models.RatingsOf | Movie-Recommendation-BE/apps/movies_api/services/recommendation_service.py:43 | keeps exactly the ratings of the given user |
| Models.HighlyRated | Movie-Recommendation-BE/apps/movies_api/services/recommendation_service.py:46 | keeps exactly the ratings with a score of 4 or more |
| Models.ToSet | Movie-Recommendation-BE/apps/movies_api/services/recommendation_service.py:38 | `set(list)` holds exactly the list's entries |
| Signals.NormalizeGenres | Movie-Recommendation-BE/apps/movies_api/signals.py:31-32 | a non-list value is left as it is; a list keeps only its strings, lower-cased, in order |
| Signals.NormalizedIsLower | Movie-Recommendation-BE/apps/movies_api/signals.py:31-32 | after normalisation every genre is a lower-case string |
| Signals.NormalizeIdempotent | Movie-Recommendation-BE/apps/movies_api/signals.py:31-32 | normalising twice gives the same value as normalising once, so re-saving never changes genres again |
| Signals.MovieInstance.PreSave | Movie-Recommendation-BE/apps/movies_api/signals.py:25-32 | the movie's genres field becomes its normalised value |
| Signals.ProfileInstance.PreSave | Movie-Recommendation-BE/apps/movies_api/signals.py:35-41 | the profile's favourite genres become their normalised value |
| Signals.DefaultProfile | Movie-Recommendation-BE/apps/movies_api/models.py:50-57 | a new profile belongs to its user and has no favourite genres and empty bio and avatar |
| Signals.Resaved | Movie-Recommendation-BE/apps/movies_api/signals.py:16-22 | re-saving a profile keeps its user, bio and avatar and lower-cases each favourite genre |
| Signals.Accounts.SaveUser | Movie-Recommendation-BE/apps/movies_api/signals.py:7-22 | `created` is true exactly for a new user; every saved user then has exactly one profile, with a default profile for the new one |
| Signals.ProfileCountAfterSave | Movie-Recommendation-BE/apps/movies_api/signals.py:12-13 | a first save adds exactly one profile; saving an existing user adds none |
| Recommendation.CalculateMatchScore | Movie-Recommendation-BE/apps/movies_api/services/recommendation_service.py:12-65 | the score the loop accumulates equals the four-term match score, or the quality-only score for an anonymous user or one without a profile |
| Recommendation.CollectGenres | Movie-Recommendation-BE/apps/movies_api/services/recommendation_service.py:48-50 | the loop collects the genres of the liked ratings' movies, concatenated in rating order |
| Recommendation.HistoryPoints | Movie-Recommendation-BE/apps/movies_api/services/recommendation_service.py:43-55 | the history block adds the share of the distinct liked genres that the movie has, out of 30, and 0 without liked ratings |
| Recommendation.AnonymousScoreIgnoresHistory | Movie-Recommendation-BE/apps/movies_api/services/recommendation_service.py:24-31 | a score without a profile is half vote average and half capped popularity, and no rating changes it |
| Recommendation.IntersectionSize | Movie-Recommendation-BE/apps/movies_api/services/recommendation_service.py:38-39 | the number of matched favourites never exceeds the number of distinct favourites or the length of the list |
| Recommendation.GenreTermShare | Movie-Recommendation-BE/apps/movies_api/services/recommendation_service.py:37-40 | the genre term is the matched share of the favourites times 40, and lies in [0, 40], so its cap never binds |
| Recommendation.GenreTermFull | Movie-Recommendation-BE/apps/movies_api/services/recommendation_service.py:37-40 | full genre marks exactly when the favourites are distinct and all among the movie's genres |
| Recommendation.HistoryTermShare | Movie-Recommendation-BE/apps/movies_api/services/recommendation_service.py:52-55 | the history term is the matched share of the distinct liked genres times 30, and lies in [0, 30] |
| Recommendation.HistoryTermFull | Movie-Recommendation-BE/apps/movies_api/services/recommendation_service.py:52-55 | full history marks exactly when every liked genre is among the movie's genres |
| Recommendation.OnlyLikedRatingsCount | Movie-Recommendation-BE/apps/movies_api/services/recommendation_service.py:46-47 | dropping every rating below 4 from the table never changes a score |
| Recommendation.HistoryNeedsLikedRatings | Movie-Recommendation-BE/apps/movies_api/services/recommendation_service.py:44-47 | without a rating of 4 or more the history term is 0 |
| Recommendation.TermsNeedGenres | Movie-Recommendation-BE/apps/movies_api/services/recommendation_service.py:36-55 | a movie without genres gets neither genre nor history points |
| Recommendation.ScoreBounds | Movie-Recommendation-BE/apps/movies_api/services/recommendation_service.py:22 | with a vote average in [0, 10] and non-negative popularity every score lies in [0, 100] |
| Recommendation.AnonymousExample | Movie-Recommendation-BE/apps/movies_api/services/recommendation_service.py:70-77 | vote 8.7 and popularity 89.7 give an anonymous score of 88.35 |
| Recommendation.MemberExample | Movie-Recommendation-BE/apps/movies_api/services/recommendation_service.py:33-65 | two matched favourites, no history, vote 9.0, popularity 200 give 68 |
| Recommendation.Unrated | Movie-Recommendation-BE/apps/movies_api/services/recommendation_service.py:87-91 | the candidates are exactly the movies the member has not rated, or all movies for an anonymous user |
| Recommendation.GetRecommendationsForUser | Movie-Recommendation-BE/apps/movies_api/services/recommendation_service.py:80-107 | the loop's result equals the scored top-100 candidates, stably sorted by score and sliced to the limit |
| Recommendation.CandidatesAreMostPopular | Movie-Recommendation-BE/apps/movies_api/services/recommendation_service.py:94 | at most 100 candidates, all unrated, sorted by popularity, and no unrated movie left out is more popular than one kept |
| Recommendation.RecommendationsProperties | Movie-Recommendation-BE/apps/movies_api/services/recommendation_service.py:96-107 | each entry is a candidate with its own match score; never a rated movie; at most min(limit, 100); scores non-increasing; ties in popularity order; for a non-negative limit exactly min(limit, candidates) entries, and no candidate left out scores above one kept |
| Recommendation.RecommendationsTop | Movie-Recommendation-BE/apps/movies_api/services/recommendation_service.py:105-107 | a non-negative slice of the score-sorted candidates leaves out no candidate scoring above a kept one |
| Recommendation.Others | Movie-Recommendation-BE/apps/movies_api/services/recommendation_service.py:118 | the pool holds exactly the movies other than the source |
| Recommendation.SimilarPairs | Movie-Recommendation-BE/apps/movies_api/services/recommendation_service.py:121-125 | exactly the movies with genres that share one with the source are paired, each with its overlap count |
| Recommendation.CollectSimilar | Movie-Recommendation-BE/apps/movies_api/services/recommendation_service.py:121-125 | the loop builds exactly those pairs, in pool order |
| Recommendation.GetSimilarMovies | Movie-Recommendation-BE/apps/movies_api/services/recommendation_service.py:110-129 | the method's result equals the pairs sorted by (overlap, vote average) and cut to the limit |
| Recommendation.SimilarMoviesMembers | Movie-Recommendation-BE/apps/movies_api/services/recommendation_service.py:114-129 | nothing for a source without genres; never the source; each result shares a genre with it; at most `limit` results, and exactly min(limit, movies sharing a genre) for a source with genres |
| Recommendation.SimilarMoviesOrdered | Movie-Recommendation-BE/apps/movies_api/services/recommendation_service.py:128 | results are ordered by (overlap, vote average), highest first |
| Recommendation.SimilarMoviesTop | Movie-Recommendation-BE/apps/movies_api/services/recommendation_service.py:128-129 | no other movie sharing a genre is left out while ranking above a result |
| Recommendation.TrendingByGenre | Movie-Recommendation-BE/apps/movies_api/services/recommendation_service.py:132-140 | a negative limit fails at slicing; otherwise the `genres__contains` lookup fails on SQLite and gives the list on PostgreSQL |
| Recommendation.TrendingByGenreProperties | Movie-Recommendation-BE/apps/movies_api/services/recommendation_service.py:136-138 | on PostgreSQL: only movies of the genre, ordered by (popularity, vote average), exactly min(`limit`, movies of the genre), and none left out ranks above one kept |
| Recommendation.TrendingExample | Movie-Recommendation-BE/apps/movies_api/services/recommendation_service.py:136-140 | of a drama, an action film and a drama-action film, "drama" gives the two dramas, the more popular first |
| Recommendation.Dedup | Movie-Recommendation-BE/apps/movies_api/services/recommendation_service.py:169-172 | the dictionary's keys are the distinct genres seen, each once, in order of first occurrence |
| Recommendation.GenreCounts | Movie-Recommendation-BE/apps/movies_api/services/recommendation_service.py:169-174 | each distinct genre is paired with its number of occurrences |
| Recommendation.DedupSize | Movie-Recommendation-BE/apps/movies_api/services/recommendation_service.py:169-172 | the counter has one entry per distinct liked genre |
| Recommendation.CountGenres | Movie-Recommendation-BE/apps/movies_api/services/recommendation_service.py:169-172 | the nested counting loops produce exactly those (genre, count) items in dictionary order |
| Recommendation.GetUserStatistics | Movie-Recommendation-BE/apps/movies_api/services/recommendation_service.py:143-183 | the method's dictionary equals the statistics function |
| Recommendation.UserStatisticsCounts | Movie-Recommendation-BE/apps/movies_api/services/recommendation_service.py:147-181 | `{}` exactly for anonymous users, the zero dictionary exactly for members without ratings, otherwise the count, mean score and total non-null runtime in minutes and hours |
| Recommendation.UserStatisticsExtremes | Movie-Recommendation-BE/apps/movies_api/services/recommendation_service.py:164-165 | the highest and lowest rated entries are the member's own ratings with the maximal and minimal score |
| Recommendation.WatchTimeIsRuntimeSum | Movie-Recommendation-BE/apps/movies_api/services/recommendation_service.py:178-179 | skipping zero runtimes does not change the total: it is the sum of all non-null runtimes |
| Recommendation.FavoriteGenresDistinct | Movie-Recommendation-BE/apps/movies_api/services/recommendation_service.py:174-175 | five favourite genres, or all of them when fewer than five distinct genres were liked; distinct, all taken from liked movies |
| Recommendation.FavoriteGenresOrdered | Movie-Recommendation-BE/apps/movies_api/services/recommendation_service.py:174 | favourite genres are ordered by count, highest first |
| Recommendation.FavoriteGenresTop | Movie-Recommendation-BE/apps/movies_api/services/recommendation_service.py:174 | no liked genre left out is counted more often than one kept |
| Tmdb.Configure | Movie-Recommendation-BE/apps/movies_api/services/tmdb_service.py:15-18 | the service is configured exactly when an API key is set and non-empty |
| Tmdb.ReleaseDate | Movie-Recommendation-BE/apps/movies_api/services/tmdb_service.py:166-174 | a truthy release date that is not text raises; a parsed date comes from the text value |
| Tmdb.NamesOf | Movie-Recommendation-BE/apps/movies_api/services/tmdb_service.py:177-180 | genre objects give their names in order; an entry without a name or not an object raises |
| Tmdb.Genres | Movie-Recommendation-BE/apps/movies_api/services/tmdb_service.py:177-184 | `genres` decides when present; otherwise `genre_ids` or an empty list, which never fails |
| Tmdb.Normalize | Movie-Recommendation-BE/apps/movies_api/services/tmdb_service.py:155-198 | succeeds exactly when the date, the genres and the id are usable; errors follow the source's order; every other field is the value given or its default |
| Tmdb.OnlyIdGivesDefaults | Movie-Recommendation-BE/apps/movies_api/services/tmdb_service.py:186-198 | a response holding only an id yields every documented default |
| Tmdb.GenresWinOverIds | Movie-Recommendation-BE/apps/movies_api/services/tmdb_service.py:177-184 | with `genres` present, the `genre_ids` field has no effect |
| Tmdb.GenreIdsTakenAsGiven | Movie-Recommendation-BE/apps/movies_api/services/tmdb_service.py:181-182 | without `genres`, the id list is stored as given |
| Tmdb.GenresDefaultAndIdRequired | Movie-Recommendation-BE/apps/movies_api/services/tmdb_service.py:183-188 | without either genre field the genres are an empty list, and a missing id always fails |
| Tmdb.ReleaseDateNoneCases | Movie-Recommendation-BE/apps/movies_api/services/tmdb_service.py:166-174 | a missing, null, empty or unparsable date normalises to no date |
| Tmdb.NormalizeDetailedRecord | Movie-Recommendation-BE/apps/movies_api/services/tmdb_service.py:155-198 | normalising the details record of a movie gives back its id, title, overview, date, poster and backdrop paths, figures, runtime and genre names |
| Tmdb.ImageUrl | Movie-Recommendation-BE/apps/movies_api/services/tmdb_service.py:200-228 | '' exactly for an empty path; otherwise base, size and the path, which can be read back |
| Tmdb.ImageUrlInjective | Movie-Recommendation-BE/apps/movies_api/services/tmdb_service.py:200-228 | two paths with the same URL at one size are the same path |
| Tmdb.PosterUrlsAgree | Movie-Recommendation-BE/apps/movies_api/services/tmdb_service.py:200-213 | the service's default poster URL equals the model's `poster_url` (or '' without a poster); a backdrop URL exists exactly when the path does |
| Tasks.StoredGenres | Movie-Recommendation-BE/apps/movies_api/tasks.py:50-63 | a list of genres can be stored, anything else is refused |
| Tasks.StoredGenresAreNormalized | Movie-Recommendation-BE/apps/movies_api/signals.py:31-32 | what the pre-save signal leaves in a stored genre list is exactly the stored strings |
| Tasks.ToDefaults | Movie-Recommendation-BE/apps/movies_api/tasks.py:50-63 | a record gives row fields exactly when the id, vote count and runtime are integers (a null runtime too), the texts are strings, the figures numbers and the genres a list; each of the eleven fields then carries the normalised value, the genres as the pre-save hook stores them |
| Tasks.Overwritten | Movie-Recommendation-BE/apps/movies_api/tasks.py:51-54 | an updated row carries every default and the update time, and keeps its primary key and creation time |
| Tasks.NewRow | Movie-Recommendation-BE/apps/movies_api/tasks.py:51-54 | a created row carries every default, the given primary key, and both timestamps set to now |
| Tasks.TmdbIndex | Movie-Recommendation-BE/apps/movies_api/tasks.py:49 | finds the row with the given TMDb id, or reports that none has it |
| Tasks.Upsert | Movie-Recommendation-BE/apps/movies_api/tasks.py:49-64 | a row is created exactly when no row has the TMDb id, with the next primary key; otherwise the row holding the id takes every default and the update time, keeps its key and creation time, and every other row is unchanged |
| Tasks.UpsertKeepsValid | Movie-Recommendation-BE/apps/movies_api/tasks.py:49-64 | `update_or_create` keeps TMDb ids and primary keys unique, and afterwards a row with that TMDb id exists |
| Tasks.MovieStore.UpdateOrCreate | Movie-Recommendation-BE/apps/movies_api/tasks.py:49-64 | the store's new table and `created` are those of the upsert, and a valid table stays valid |
| Tasks.AbortedStays | Movie-Recommendation-BE/apps/movies_api/tasks.py:39-66 | once an entry aborts the loop, later entries change nothing |
| Tasks.SyncRunCounts | Movie-Recommendation-BE/apps/movies_api/tasks.py:39-66 | the created and updated counts only grow, by at most one per entry, and the table stays valid |
| Tasks.SyncOutcomeProperties | Movie-Recommendation-BE/apps/movies_api/tasks.py:21-80 | a failed fetch or missing `results` gives "failed" with the table unchanged; the table stays valid; the counts never exceed the number of results |
| Tasks.SyncTrendingMovies | Movie-Recommendation-BE/apps/movies_api/tasks.py:21-80 | the store and the result are those the sync outcome function prescribes, and a valid table stays valid |
| Tasks.SyncEntries | Movie-Recommendation-BE/apps/movies_api/tasks.py:39-66 | the loop over the results leaves the table and the counts of the entry-by-entry run, and reports a retry when that run aborts |
| Tasks.UpdateOutcome | Movie-Recommendation-BE/apps/movies_api/tasks.py:83-111 | a success needs details and reports the requested TMDb id; without details the table is unchanged |
| Tasks.UpdateOutcomeProperties | Movie-Recommendation-BE/apps/movies_api/tasks.py:83-111 | missing details give "failed" with no change; the table stays valid; on success `created` is true exactly for a new TMDb id, the reported title is the record's, and the reported row holds the record's fields, updated now |
| Tasks.UpdateMovieMetadata | Movie-Recommendation-BE/apps/movies_api/tasks.py:83-111 | the store and the result are those of the update outcome, and a valid table stays valid |
| Tasks.RefreshChangesOnlyFigures | Movie-Recommendation-BE/apps/movies_api/tasks.py:126-143 | a refresh changes only popularity, vote average, vote count and the update time, and keeps a figure the response leaves out |
| Tasks.RefreshRowOutcome | Movie-Recommendation-BE/apps/movies_api/tasks.py:126-143 | a raising fetch counts as failed; empty details leave the row as it is; otherwise the row fails exactly when a sent figure has the wrong type, and a refreshed row takes each sent figure, keeps each missing one, and is updated now |
| Tasks.BulkCounts | Movie-Recommendation-BE/apps/movies_api/tasks.py:114-153 | updated plus failed never exceeds the number of movies |
| Tasks.CountsMeaning | Movie-Recommendation-BE/apps/movies_api/tasks.py:126-143 | `failed` is the number of rows whose fetch raises or sends a mistyped figure; `updated` is the number of the other rows with non-empty details |
| Tasks.RefreshAllRows | Movie-Recommendation-BE/apps/movies_api/tasks.py:126-143 | each row is refreshed from its own TMDb response and keeps its ids |
| Tasks.RefreshKeepsValid | Movie-Recommendation-BE/apps/movies_api/tasks.py:114-153 | the bulk refresh keeps TMDb ids and primary keys unique |
| Tasks.BulkUpdatePopularity | Movie-Recommendation-BE/apps/movies_api/tasks.py:114-153 | the in-place loop leaves every row refreshed; `updated` counts the rows refreshed from non-empty details and `failed` the rows whose fetch raises or sends a mistyped figure; a valid table stays valid |
| Tasks.Kept | Movie-Recommendation-BE/apps/movies_api/tasks.py:164-179 | the remaining movies are exactly those that are not stale (old, unpopular and unrated) |
| Tasks.KeptPlusStale | Movie-Recommendation-BE/apps/movies_api/tasks.py:164-179 | kept plus deleted is the original number of movies |
| Tasks.KeptKeepsValid | Movie-Recommendation-BE/apps/movies_api/tasks.py:156-183 | the cleanup keeps TMDb ids and primary keys unique |
| Tasks.CleanupOldMovies | Movie-Recommendation-BE/apps/movies_api/tasks.py:156-183 | the stale movies are deleted, the others kept, the reported count is the number deleted, and a valid table stays valid |
| Views.TrendingIsTopTwenty | Movie-Recommendation-BE/apps/movies_api/views.py:37-42 | 20 movies from the table (all of a smaller one), by popularity, and none left out is more popular than one shown |
| Views.RecentIsNewestTwenty | Movie-Recommendation-BE/apps/movies_api/views.py:44-49 | 20 movies (all of a smaller table), newest first, and none left out is newer than one shown |
| Views.TopRatedIsBestVoted | Movie-Recommendation-BE/apps/movies_api/views.py:51-56 | 20 movies with 100 votes or more (all of them when fewer qualify), by vote average, and no such movie left out rates higher |
| Views.TrendingShowsSmallTable | Movie-Recommendation-BE/apps/movies_api/views.py:37-42 | a table of 20 movies or fewer is shown in full |
| Views.VisibleProfiles | Movie-Recommendation-BE/apps/movies_api/views.py:69-77 | an anonymous request gets no query set |
| Views.VisibleProfilesRule | Movie-Recommendation-BE/apps/movies_api/views.py:69-77 | staff see every profile; other members see exactly their own |
| Views.VisiblePlaylistsAreAccessible | Movie-Recommendation-BE/apps/movies_api/views.py:176-184 | a listed playlist is exactly one that is public or owned by the requester |
| Views.RatingIndex | Movie-Recommendation-BE/apps/movies_api/views.py:129-147 | finds the rating with the requested id, or reports that none has it |
| Views.RatingChangeRule | Movie-Recommendation-BE/apps/movies_api/views.py:129-147 | only the rating's author or staff may change or delete it, others get 403; an allowed update succeeds exactly with an existing `movie_id` the author has not rated elsewhere, a score in 1..5 and a review of at most 1000 characters once stripped; a missing `movie_id` or an overlong review gets 400 |
| Views.RatingTable.Updated | Movie-Recommendation-BE/apps/movies_api/views.py:129-137 | the updated rating gets the new movie and score, the new review when one was sent, keeps its ids, and every other rating is unchanged |
| Views.RatingTable.Update | Movie-Recommendation-BE/apps/movies_api/views.py:129-137 | the status is the update outcome, including the serializer's 400 and the unique constraint's server error; the table changes only on success, and then only that rating, with the review stored stripped |
| Views.RatingTable.Destroy | Movie-Recommendation-BE/apps/movies_api/views.py:139-147 | the status is the permission outcome; on success exactly that rating is removed |
| Views.UpdatedKeepsValid | Movie-Recommendation-BE/apps/movies_api/views.py:129-137 | a change to a valid score and to a movie the author has not rated elsewhere keeps every score in range and one rating per (user, movie) |
| Views.UpdateKeepsValid | Movie-Recommendation-BE/apps/movies_api/views.py:129-137 | every successful update leaves a valid rating table valid |
| Views.PlaylistChangeRule | Movie-Recommendation-BE/apps/movies_api/views.py:190-208 | only the owner or staff may change a visible playlist, others get 403 on update and a server error on delete; an allowed update succeeds exactly with a non-blank name of at most 200 characters and a description of at most 500, both once stripped; a missing or blank name gets 400 |
| Views.PrivatePlaylistHidden | Movie-Recommendation-BE/apps/movies_api/views.py:176-184 | someone else's private playlist cannot be found by update, delete or membership changes |
| Views.MembershipRule | Movie-Recommendation-BE/apps/movies_api/views.py:223-277 | adding or removing a movie succeeds exactly for the owner, with a positive id of an existing movie; staff are refused on other people's public playlists |
| Views.PlaylistTable.Update | Movie-Recommendation-BE/apps/movies_api/views.py:190-198 | the status is the update outcome, including the serializer's 400; only on success does the playlist change, taking the stripped name, the stripped description and the visibility when sent, and only that playlist |
| Views.PlaylistTable.Edited | Movie-Recommendation-BE/apps/movies_api/views.py:190-198 | the edited playlist has the new name, the new description and visibility when sent, and keeps its id, owner and movies |
| Views.PlaylistTable.Destroy | Movie-Recommendation-BE/apps/movies_api/views.py:200-208 | the status is the delete outcome; on success exactly that playlist is removed |
| Views.PlaylistTable.AddMovie | Movie-Recommendation-BE/apps/movies_api/views.py:223-249 | the status is the membership outcome; on success the movie joins that playlist and nothing else changes |
| Views.PlaylistTable.RemoveMovie | Movie-Recommendation-BE/apps/movies_api/views.py:251-277 | the status is the membership outcome; on success the movie leaves that playlist and nothing else changes |
| Views.MovieCountAfterMembership | Movie-Recommendation-BE/apps/movies_api/models.py:135-138 | adding a movie raises the count by one unless it was already there; removing lowers it by one only if it was there |
| Views.AddThenRemove | Movie-Recommendation-BE/apps/movies_api/views.py:223-277 | adding a new movie and removing it again restores the playlist's movies |
| Serializers.ValidateScore | Movie-Recommendation-BE/apps/movies_api/serializers.py:77-81 | a score is accepted unchanged exactly when it is in 1..5 |
| Serializers.ValidateScoreMatchesModel | Movie-Recommendation-BE/apps/movies_api/serializers.py:77-81 | the serializer accepts exactly the scores the model's validators accept |
| Serializers.CleanText | Movie-Recommendation-BE/apps/movies_api/models.py:81-112 | a text field from the model: absent is refused when required (a name) and otherwise keeps the stored value; blank once stripped is refused unless the field may be blank; longer than `max_length` once stripped is refused; the value is the stripped text |
| Serializers.CleanTextPadding | Movie-Recommendation-BE/apps/movies_api/models.py:81-112 | whitespace around a sent value never changes the field's outcome |
| Serializers.CleanTextIdempotent | Movie-Recommendation-BE/apps/movies_api/models.py:81-112 | a cleaned value sent again is accepted unchanged |
| Serializers.CleanCharField | Movie-Recommendation-BE/apps/movies_api/serializers.py:136-137 | a required text field passes exactly when present, not blank once stripped and at least the minimum length once stripped; its value is the stripped text; absent and all-whitespace values get their own errors |
| Serializers.FieldErrors | Movie-Recommendation-BE/apps/movies_api/serializers.py:136-141 | no field error exactly when the username is present and not blank and both password fields are present and at least 8 long once stripped |
| Serializers.ValidateRegistration | Movie-Recommendation-BE/apps/movies_api/serializers.py:134-147 | valid exactly when the username is not blank and the stripped passwords are at least 8 long and equal; the validated data is the stripped declared fields; field errors are reported together, before the mismatch check |
| Serializers.MismatchRefused | Movie-Recommendation-BE/apps/movies_api/serializers.py:143-147 | passwords that differ once stripped are refused, as a mismatch when every field passed |
| Serializers.SurroundingWhitespaceIgnored | Movie-Recommendation-BE/apps/movies_api/serializers.py:136-147 | a confirmation that differs only in surrounding whitespace is accepted and validated as the password itself |
| Serializers.PaddingIgnored | Movie-Recommendation-BE/apps/movies_api/serializers.py:136-147 | adding whitespace around any field never changes the outcome of validation |
| Serializers.PasswordFieldErrors | Movie-Recommendation-BE/apps/movies_api/serializers.py:136-137 | an all-whitespace password is reported blank, and one shorter than 8 once stripped is reported too short |
| Serializers.Create | Movie-Recommendation-BE/apps/movies_api/serializers.py:149-159 | `password_confirm` is removed first (KeyError when absent); the user is built exactly when username and password are present, with '' for missing optional fields |
| Serializers.ReleaseYear | Movie-Recommendation-BE/apps/movies_api/serializers.py:39-43 | the year of the release date, or none without one |
| Serializers.ReleaseYearShownByStr | Movie-Recommendation-BE/apps/movies_api/serializers.py:56-59 | the reported year is the one the display string shows |
| Filters.FilterByGenreScan | Movie-Recommendation-BE/apps/movies_api/filters.py:45-51 | the SQLite loop collects the ids of the movies that have the genre and re-filters by them |
| Filters.FilterByGenre | Movie-Recommendation-BE/apps/movies_api/filters.py:36-54 | on either database the result equals the containment filter |
| Filters.ScanAgreesWithNative | Movie-Recommendation-BE/apps/movies_api/filters.py:45-54 | with distinct ids, the scan-and-refilter branch selects the same movies in the same order as containment |
| Filters.FilterByGenreSelects | Movie-Recommendation-BE/apps/movies_api/filters.py:52-54 | selected movies have a non-empty genre list holding the value, and every movie with the genre is selected |
| KeyArgs.KwargPartsIgnoreOrder | Movie-Recommendation-BE/cache.py:26 | keyword arguments give the same key parts in any order |
| RootCache.MakeFullKey | Movie-Recommendation-BE/cache.py:14-18 | every full key starts with "nexus_movie:"; a key already starting so is unchanged; any other gets the prefix in front |
| RootCache.MakeFullKeyIdempotent | Movie-Recommendation-BE/cache.py:14-18 | namespacing twice equals namespacing once |
| RootCache.MakeFullKeyMerges | Movie-Recommendation-BE/cache.py:14-18 | a bare key and its prefixed form map to the same full key, unless the bare key itself starts with the namespace |
| RootCache.NoneArgIgnored | Movie-Recommendation-BE/cache.py:25 | a `None` positional argument never changes the key |
| RootCache.KwargsOrderIgnored | Movie-Recommendation-BE/cache.py:21-28 | keyword order never changes the generated key |
| RootCache.CachedViewKey | Movie-Recommendation-BE/cache.py:38-48 | view keys are namespaced and, for authenticated users, end in ":user:<id>" |
| RootCache.ViewKeyIgnoresQueryOrder | Movie-Recommendation-BE/cache.py:42 | the order of query-string parameters never changes the view key |
| RootCache.CachedViewCall | Movie-Recommendation-BE/cache.py:37-57 | a cached response is returned without calling the view; otherwise the view's response is stored under the key and returned |
| RootCache.CachedQueryCall | Movie-Recommendation-BE/cache.py:68-79 | the same for functions, under the namespaced query key |
| RootCache.InvalidatePattern | Movie-Recommendation-BE/cache.py:90-106 | exactly the matching keys are deleted and counted; an unreachable server deletes nothing and reports 0 |
| RootCache.InvalidateMovie | Movie-Recommendation-BE/cache.py:110-127 | deletes exactly the keys matched by the six movie patterns and reports how many |
| RootCache.InvalidateUser | Movie-Recommendation-BE/cache.py:131-146 | deletes exactly the keys matched by the four user patterns and reports how many |
| RootCache.GetOrSet | Movie-Recommendation-BE/cache.py:150-162 | returns the cached value under the full key, or computes, stores and returns a fresh one |
| RootCache.MovieGlobsAre | Movie-Recommendation-BE/cache.py:114-121 | the movie patterns are three literal keys and three prefixes |
| RootCache.UserGlobsAre | Movie-Recommendation-BE/cache.py:135-140 | the user patterns are one prefix and three literal keys |
| RootCache.MovieInvalidationReach | Movie-Recommendation-BE/cache.py:110-127 | a key is reached by a movie invalidation exactly when it has one of the six shapes |
| RootCache.UserInvalidationReach | Movie-Recommendation-BE/cache.py:131-146 | a key is reached by a user invalidation exactly when it has one of the four shapes |
| RootCache.MovieListKeySurvives | Movie-Recommendation-BE/cache.py:114-121 | `movie_list:*` never matches the "movie:list:" keys `CacheKeys` builds, so listing caches survive a movie invalidation |
| RootCache.ListingKeysSurvive | Movie-Recommendation-BE/cache.py:114-121 | genre, trending and popular listing keys also survive |
| RootCache.MovieKeysDeleted | Movie-Recommendation-BE/cache.py:114-116 | the movie's detail and similar keys are deleted |
| RootCache.MovieWideKeysDeleted | Movie-Recommendation-BE/cache.py:118-120 | every user's recommendations and every key under "movie:<id>:" are deleted |
| RootCache.OtherMovieKeysSurvive | Movie-Recommendation-BE/cache.py:114-117 | another movie's detail and similar keys survive |
| RootCache.UserKeysDeleted | Movie-Recommendation-BE/cache.py:135-140 | the user's recommendations, playlist, ratings and "user:<id>:" keys are deleted |
| RootCache.MovieKeysSurviveUserInvalidation | Movie-Recommendation-BE/cache.py:135-140 | movie detail, similar and list keys survive a user invalidation |
| RootCache.OtherUserRecommendationsSurvive | Movie-Recommendation-BE/cache.py:137 | another user's recommendations survive |
| RootCache.TagKeyInjective | Movie-Recommendation-BE/cache.py:225 | different tags have different tag keys |
| RootCache.AddToTag | Movie-Recommendation-BE/cache.py:225-228 | adding to a tag raises on a stored value that is truthy but not a set; otherwise the tag holds the key and nothing else changes |
| RootCache.TagAllRecords | Movie-Recommendation-BE/cache.py:224-228 | when no tag raises, every tag's set holds the key |
| RootCache.TagAllTouchesOnlyTags | Movie-Recommendation-BE/cache.py:224-228 | the tag loop changes only tag keys |
| RootCache.SetWithTags | Movie-Recommendation-BE/cache.py:220-228 | the value is stored under the full key, then each tag in order; the result is what the tag loop prescribes |
| RootCache.SetWithTagsRecords | Movie-Recommendation-BE/cache.py:220-228 | after a successful call every tag lists the full key |
| RootCache.InvalidateByTag | Movie-Recommendation-BE/cache.py:230-240 | an empty or missing tag deletes nothing and reports 0; otherwise the tagged keys and the tag are deleted and their number reported; a counter value raises |
| RootCache.InvalidateByTagClears | Movie-Recommendation-BE/cache.py:230-240 | after a tag invalidation neither the tag nor any tagged key is left, and every other key keeps its value |
| RootCache.IncrementCounter | Movie-Recommendation-BE/cache.py:242-248 | a missing counter is set to the amount; an integer is increased by it; any other value raises |
| CacheStore.ParseGlob | Movie-Recommendation-BE/cache.py:99 | a trailing '*' makes a prefix pattern; any other pattern is literal |
| CacheStore.GlobTextOfParse | Movie-Recommendation-BE/cache.py:99 | every pattern reads as a well-formed glob, and writing that glob back gives the pattern text |
| CacheStore.ParseGlobText | Movie-Recommendation-BE/cache.py:99 | reading the text of a glob whose literal does not end in '*' gives the same glob |
| CacheStore.Keep | Movie-Recommendation-BE/cache.py:99-101 | after deletion exactly the keys no pattern matches remain, with their values |
| CacheStore.Store.DeleteMatching | Movie-Recommendation-BE/cache.py:97-106 | deletes exactly the keys matching the pattern and counts them; nothing when the server is unreachable |
| CacheStore.Store.DeleteEach | Movie-Recommendation-BE/cache.py:123-127 | the invalidation loop keeps exactly the keys no pattern matches, and its total is the number deleted |
| CacheStore.Store.GetOrCompute | Movie-Recommendation-BE/cache.py:154-162 | a stored value other than None is returned unchanged; otherwise the computed value is stored and returned |
| AppCache.RedisPrefixIsNamespace | Movie-Recommendation-BE/apps/movies_api/cache.py:73 | the raw-Redis prefix is the project-level namespace |
| AppCache.NoneArgKept | Movie-Recommendation-BE/apps/movies_api/cache.py:14 | unlike the project-level generator, this one keeps a `None` argument as "None" |
| AppCache.AppKwargsOrderIgnored | Movie-Recommendation-BE/apps/movies_api/cache.py:10-17 | keyword order never changes the generated key |
| AppCache.AppCachedQueryKey | Movie-Recommendation-BE/apps/movies_api/cache.py:34 | the query key starts with the decorator's prefix and is not namespaced |
| AppCache.AppCachedQueryCall | Movie-Recommendation-BE/apps/movies_api/cache.py:32-47 | a cached result is returned without calling the function; otherwise the result is stored under the raw key |
| AppCache.RepeatedQuery | Movie-Recommendation-BE/apps/movies_api/cache.py:32-47 | the second of two identical calls never runs the function and returns the first call's value |
| AppCache.AppGetOrSet | Movie-Recommendation-BE/apps/movies_api/cache.py:119-138 | returns the value cached under the raw key, or computes, stores and returns a fresh one |
| AppCache.GetOrSetTwice | Movie-Recommendation-BE/apps/movies_api/cache.py:119-138 | a second call never invokes the callback and returns the first value |
| AppCache.AppInvalidatePattern | Movie-Recommendation-BE/apps/movies_api/cache.py:58-81 | exactly the keys matching "nexus_movie:" + pattern are deleted and counted |
| AppCache.AppInvalidateMovie | Movie-Recommendation-BE/apps/movies_api/cache.py:84-99 | deletes exactly the keys matched by the four movie patterns and reports how many |
| AppCache.AppInvalidateUserCache | Movie-Recommendation-BE/apps/movies_api/cache.py:102-116 | deletes exactly the keys matched by the three user patterns and reports how many |
| AppCache.AppMovieGlobsAre | Movie-Recommendation-BE/apps/movies_api/cache.py:88-93 | the movie patterns are the prefix "movie:<id>:", the literal "movie_detail:<id>" and two more prefixes |
| AppCache.AppUserGlobsAre | Movie-Recommendation-BE/apps/movies_api/cache.py:106-110 | the user patterns are one prefix and two literal keys |
| AppCache.AppMovieInvalidationReach | Movie-Recommendation-BE/apps/movies_api/cache.py:84-99 | a key is reached by the movie invalidation exactly when it has one of the four shapes |
| AppCache.AppUserInvalidationReach | Movie-Recommendation-BE/apps/movies_api/cache.py:102-116 | a key is reached by the user invalidation exactly when it has one of the three shapes |
| AppCache.ReachedKeysArePrefixed | Movie-Recommendation-BE/apps/movies_api/cache.py:73-74 | only keys starting with "nexus_movie:" can ever be invalidated |
| AppCache.RawDetailKeySurvives | Movie-Recommendation-BE/apps/movies_api/cache.py:119-147 | a detail key written raw by `get_or_set` is never deleted by either invalidation |
| AppCache.PrefixedDetailKeySurvives | Movie-Recommendation-BE/apps/movies_api/cache.py:88-93 | even in prefixed form the "movie:detail:<id>" key survives its own movie's invalidation |
| AppCache.PrefixedListingKeysSurvive | Movie-Recommendation-BE/apps/movies_api/cache.py:88-93 | the list, trending and top-rated keys survive a movie invalidation |
| AppCache.AppMovieKeysDeleted | Movie-Recommendation-BE/apps/movies_api/cache.py:88-93 | "movie_detail:<id>", every key under "movie:<id>:" and every user's recommendations are deleted |
| AppCache.AppUserKeysDeleted | Movie-Recommendation-BE/apps/movies_api/cache.py:106-110 | the user's recommendations, ratings and "user:<id>:" keys are deleted |
| AppCache.PlaylistKeySurvivesUserInvalidation | Movie-Recommendation-BE/apps/movies_api/cache.py:106-110 | unlike the project-level invalidation, the user's playlist key is not deleted |

## Left out

- Django's own cache key function is not modelled: the `KEY_PREFIX` and version it adds inside `cache.get`/`cache.set`. Keys are stored exactly as the modules pass them. `KEY_PREFIX` is taken as its default "nexus_movie", because the settings module is not part of this model.
- Timeouts and expiry are not modelled; stored values never expire.
- Redis `KEYS` patterns are modelled only for a trailing `*`. Any other glob character is treated as a literal, and no pattern in the source uses one.
- The MD5 digest is a parameter, not computed.
- Exceptions from the Redis connection are reduced to a "server unreachable" flag on the store.
- `print` and logging, Celery's task retries and sleeps, and HTTP requests to TMDb are left out. TMDb responses are parameters: a response map, or a function from TMDb id to a fetch outcome.
- Date strings are parsed and formatted by function parameters; `datetime.strptime` is not modelled.
- Clock readings (`timezone.now()`, `auto_now`) are an integer `now` parameter.
- Floating-point numbers are reals. Python's `round(…, 2)` on scores and averages, and `round(…, 1)` on hours, is not applied.
- Lower-casing in the genre signals covers ASCII letters only.
- Text.Strip: removes ASCII whitespace only; the other Unicode whitespace that `str.strip` also removes is kept.
- Tasks.ToDefaults: Django's model fields coerce strings to numbers when saving; the model accepts only values already of the field's type and refuses the others, like any other save error.
- Tasks.RefreshRow: the same strict typing in `bulk_update_popularity`; a `vote_count` of `7.0` or a numeric string, which the integer field would coerce on save, makes the row count as failed.
- Tasks.StoredGenres: only a genre list can be stored. The JSON field would accept other JSON values, and the pre-save signal leaves those untouched.
- Tasks.UpdateOutcome: does not model the database error raised by a row whose update itself fails; such a failure is the same retry result as a malformed response.
- Views.MembershipOutcome: `movie_id` arrives as an optional integer. A non-numeric text value, which the source answers with a server error through `MovieMetadata.objects.get`, is not modelled.
- Views.RatingTable.Update: the score is always sent as an integer; a missing or non-integer score, which the serializer answers with 400, is not modelled. Partial updates (PATCH) are not modelled.
- Views.PlaylistTable.Update: replacing the movie list through the serializer's `movie_ids` is not modelled, and `visibility` is one of the two choices or absent; an invalid choice, which the serializer answers with 400, is not modelled. Partial updates (PATCH) are not modelled.
- Password hashing by `create_user` is not modelled; `Serializers.Create` returns the arguments it passes.
- Serializers.ValidateRegistration: the username's 150-character limit, its character validator and its uniqueness check against the user table, and the email format check, are not modelled; the optional fields are only stripped.
- RootCache.InvalidateByTag: a stored non-string value other than a set or a counter (a list, a dict, a float, a boolean) is taken by its text, so its truthiness and its length are those of that text; tag keys only ever hold sets in the repository.
- Deleting a movie, rating or playlist does not cascade into the other tables or into playlist membership in the model.
- Query-set ordering ties are resolved by table order (a stable sort). The database may break ties differently.
- Pagination, URL routing, authentication back-ends and the management commands are not part of this model.
