# Markov text generator: a Dafny model

This project models the core of `main.py`, a small Markov-chain text generator.

What the program does:

- It splits a text into whitespace tokens, the corpus.
- It regroups the corpus into chunk lists of 2, 3 and 4 tokens per chunk.
- It tallies how often each token follows a given key.
- It writes 10 to 12 sentences of 10 to 12 steps each. Every step draws an "order" from 1 to 4 and calls `size_handler`, which tries the back-off cascade `four_words` → `three_words` → `two_words` → `one_word`.

The model is purely functional. Python exceptions become a `Result` (`results.dfy`). Randomness is an injected `Chooser`: a function from a draw number, a population and its weights to a position in that population. The sentence and step counts, and the drawn orders, are parameters (`plans`).

Modules:

- `Text`: `str.split()`, `" ".join`, and character-level slicing.
- `Counter`: the Python dict of counts, with insertion-ordered keys.
- `Tally`: `word_element` and the chunk-element functions.
- `Chunker`: the k-way splitters.
- `Sampler`: `random.choices`.
- `Backoff`: the cascade and `size_handler`.
- `Generator`: the loops of `main`.

The model follows the code as written, including these behaviours:

- **Boundary rule.** A follower at position `i + 1` counts only when `i + 1 < len - 1`, so the last two positions never contribute.
- **Higher orders never match.** `two_words`, `three_words` and `four_words` hand the element functions one list of chunks. Each element function then scans the first element of that list, which is a chunk string, so the scan is over its single characters. The key is a space-joined group of at least two tokens, so it always has at least three characters and never equals a single character. The order-k tally is therefore always empty.
  - The shortened keys `" ".join(key[-2:])` and `" ".join(key[-3:])` take the last characters of the key string, space-separated. They are never one character long either.
  - As a result, every step of every order is exactly one `one_word` draw on the corpus (`Backoff.SizeHandlerStep`, `Generator.RunStepsIsWalk`). A sentence is a plain order-1 walk.
- **`four_words` uses the 3-way chunk list.** It scans `corpus_list[1]`, not `corpus_list[0]`.
- **Truncation keeps `L - 1` tokens.** After the inner loop, `i` is `L - 1`, so `sentence[-i:]` keeps the last `L - 1` tokens rather than `L`. When `L = 1`, `sentence[-0:]` keeps the whole buffer. The comment at main.py:224 speaks of sentences of 11 to 13 words. The loop runs `L` = 10 to 12 steps, so a sentence keeps 9 to 11 tokens. The model follows the code.

## Model

| member | source | states |
|---|---|---|
| Text.Split | main.py:206 | `str.split()`: every token is non-empty and contains no whitespace character (Python's whitespace set) |
| Text.SplitJoin | main.py:152-153 | splitting the space-join of a list of tokens gives the same list back; chunk strings therefore split back into their window |
| Text.Chars | main.py:45-49 | indexing a chunk string yields its one-character strings, one per position |
| Text.SpacedTail | main.py:131 | `" ".join(key[-n:])` has length 2·min(n, len key) − 1 (0 for an empty key) and so is never exactly one character for a key of three or more characters |
| Text.SpacedTailIsJoin | main.py:143 | the spaced tail is the space-join of the last n characters of the key |
| Counter.Inc | main.py:37-40 | counting one occurrence: a present key gains one, an absent key is appended with count 1, every other key is unchanged |
| Counter.CountAll | main.py:36-41 | the dict built by the counting loop has exactly the listed elements as keys, each mapped to its number of occurrences |
| Counter.GetKeys | main.py:92-93 | the keys of the dict, each exactly once |
| Counter.GetVals | main.py:96-97 | the weights line up with the keys position by position |
| Counter.CountAllTotal | main.py:36-41 | the counts add up to the length of the counted list |
| Tally.WordElement | main.py:28-41 | every tallied follower has count ≥ 1 and was observed after the key at a qualifying position |
| Tally.TallyContents | main.py:31-41 | x is tallied exactly when some qualifying position of the key is followed by x, and its count is the number of such positions |
| Tally.TallyTotal | main.py:34-41 | the counts add up to the number of qualifying positions of the key |
| Tally.TallyEmptyIff | main.py:31-35 | boundary rule: the tally is empty exactly when the key occurs nowhere but in the last two positions (or not at all) |
| Tally.ChunkElement | main.py:44-86 | the chunk tallies fail (IndexError) exactly on an empty chunk list, and otherwise tally only followers observed among the characters of its first chunk string |
| Tally.ChunkElementContents | main.py:45-56 | on a non-empty chunk list, x is tallied exactly when it was observed after the key among the characters of the first chunk string, with count equal to the number of qualifying positions followed by x |
| Tally.ChunkElementNeverMatches | main.py:44-86 | a key that is not one character long gets an empty chunk tally |
| Chunker.Windows | main.py:153 | the slices `words[i:i+k]` concatenate back to the words, all but the last hold k tokens and the last holds 1 to k |
| Chunker.WindowsCount | main.py:153 | there are ceil(n / k) slices of n tokens |
| Chunker.KWaySplit | main.py:151-163 | the chunk list is non-empty exactly when the text has a token |
| Chunker.ChunksRoundTrip | main.py:151-163 | each chunk splits back into its window, windows have the stated sizes, and splitting every chunk and concatenating gives back the corpus |
| Sampler.Choices | main.py:108 | `random.choices(k, weights=v)[0]` returns a member of the population, and fails with EmptyDistribution (an IndexError in Python) exactly when the population is empty |
| Backoff.CorpusList | main.py:206-211 | four lists with the corpus last; each is non-empty exactly when the corpus is, and the corpus is made of tokens |
| Backoff.OneWord | main.py:104-109 | one_word succeeds exactly when the current word has a counted follower, and then returns a follower observed after it |
| Backoff.OneWordToken | main.py:104-109 | the word one_word draws is a corpus token |
| Backoff.AppendWord | main.py:193-196 | the order-1 step appends the drawn word and makes it the current word, and passes a failed draw on |
| Backoff.Extend | main.py:175-176 | the higher-order step succeeds exactly when the draw succeeded with a chunk holding a token; it then extends the sentence by the split of the chunk and makes the sentence's last token the current word; otherwise it fails with the draw's error, or IndexError on a blank chunk |
| Backoff.TwoWordsFallsThrough | main.py:112-120 | with a key that is not one character long, two_words is one_word on the last list |
| Backoff.ThreeWordsFallsThrough | main.py:123-132 | with such a key, three_words falls through two_words to one_word on the last list |
| Backoff.FourWordsFallsThrough | main.py:135-144 | with such a key, four_words falls through three_words and two_words to one_word on the last list |
| Backoff.KeyLength | main.py:168-170 | a key joined from two or more tokens is never a single character |
| Backoff.CascadeFallsThrough | main.py:171-188 | at orders 2 to 4 the cascade is one_word on the corpus |
| Backoff.SizeHandlerStep | main.py:166-196 | for every order from 1 to 4, one size_handler step appends exactly one one_word draw on the corpus |
| Generator.Draw | main.py:193 | the order-1 draw returns only observed followers and fails only with an empty distribution |
| Generator.ChainedInCorpus | main.py:34-35 | a walk along observed followers only visits corpus tokens |
| Generator.HandlerIsDraw | main.py:232-235 | main's step function is the order-1 draw at every order, over sentences of corpus tokens |
| Generator.RunStepsIsWalk | main.py:225-235 | whatever orders are drawn, the inner loop equals the plain order-1 walk of the same number of steps |
| Generator.WalkShape | main.py:225-235 | a successful walk of n steps appends n tokens, each observed after its predecessor; it fails only for want of a follower |
| Generator.Truncate | main.py:236-238 | truncation keeps the last L − 1 tokens (all of them when L = 1), fails exactly on an empty buffer, and makes the last kept token the current word |
| Generator.TruncateChain | main.py:236-238 | a truncated chain is still a chain of observed followers |
| Generator.TruncatedWalkShape | main.py:225-238 | an L-step walk from an empty buffer, truncated, keeps all but its first token (one token when L = 1) |
| Generator.SentenceIsTruncatedWalk | main.py:222-238 | a sentence is the truncated order-1 walk of its step count |
| Generator.SentenceShape | main.py:222-238 | a sentence succeeds exactly when the walk does; it has max(1, L − 1) corpus tokens, each observed after its predecessor, and ends on the next current word |
| Generator.SentenceFacts | main.py:222-238 | a sentence fails only with an empty distribution, and otherwise has the stated length and corpus tokens |
| Generator.MakerGood | main.py:222-238 | main's sentence maker meets what the outer loop relies on |
| Generator.FirstWord | main.py:214 | the first current word is a corpus token (numpy's stripping of trailing U+0000 is not modelled; see "Left out") |
| Generator.SentencesShape | main.py:220-240 | the outer loop writes one sentence per plan, each of max(1, L − 1) corpus tokens, and only a missing follower stops it |
| Generator.ShapedCons | main.py:220-240 | a well-shaped sentence followed by a well-shaped document is a well-shaped document |
| Generator.GenerateShape | main.py:205-240 | main refuses an empty text before drawing anything (EmptyCorpus exactly then); otherwise it fails only for want of a follower, and a document has one sentence per plan of max(1, L − 1) corpus tokens |

## Left out

- File reading (main.py:202-203) and printing (main.py:242) are not modelled. The model takes the text as a string and returns the document as a list of sentences.
- The final `" ".join(sentence)` and `"\n"` concatenation (main.py:239-240) are not modelled. The result is the list of sentence token lists, and `Text.SplitJoin` states that joining a sentence with spaces loses nothing.
- The probability distributions are not modelled: the weights passed to `random.choices`, the uniform draws of `np.random.choice`, and the order weights `[1, 4, 2, 16]`. The injected `Chooser` is only required to return a valid position. The sentence count, step counts and drawn orders arrive as `plans`.
- Generator.FirstWord: assumes `np.random.choice(corpus)` returns the drawn token unchanged. numpy first stores the tokens in a fixed-width string array, and reading an item back drops trailing U+0000 characters, which `str.split()` keeps inside tokens. A token ending in U+0000 would therefore come back shortened, possibly to a word outside the corpus. The model does not represent that conversion, and its `w in corpus` holds only for texts whose tokens do not end in U+0000.
- Sentences requires every plan to have at least one step, because `range(10, 13)` never produces an empty plan. An empty inner loop would fail differently depending on where it falls. In the first sentence, main.py:236 reads `i` before any assignment, an UnboundLocalError. In a later sentence, `i` keeps its value from the previous sentence, the empty buffer slices to an empty list, and `sentence[-1]` at main.py:238 raises an IndexError.
- Generator.GenerateShape states its properties for orders drawn from 1 to 4 (`Orders`). For other orders, size_handler (main.py:166-196) behaves as follows, and the model agrees. An order of 1 or less takes the `one_word` branch. So does an order of 5 or more while the sentence holds fewer tokens than the order. Only an order of 5 or more with at least that many tokens finds no matching branch and returns `None`, which the unpacking at main.py:232 cannot take apart. The model gives `Err(UnpackNone)` there. main never draws such orders.
- Backoff.TwoWords, Backoff.ThreeWords, Backoff.FourWords, Backoff.SizeHandler, Generator.RunSteps, Generator.Sentence, Generator.Sentences and Generator.Generate carry no ensures of their own. Their properties are stated by the FallsThrough, Step, IsWalk and Shape lemmas in the table.
- Python's in-place list mutation (`sentence.extend`, `append`) is modelled as returning a new list. Nothing else aliases the sentence.
