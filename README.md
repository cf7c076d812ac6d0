# Robert in Aalst: a verified model of the game engine

This project models the engine of a top-down street game (React component
`GameEngine`, `components/GameEngine.tsx`). The player, Robert, walks or drives through a
generated Aalst, fights and robs NPCs with fists, a bottle, a pistol or an AK-47, and picks
up what they drop. He can buy from a weapon dealer, a car dealer and the cafe bar, and can
play the card game Pesten against the cafe's card player.

The model is split along the engine's own structure:

- `Types` holds the records and constants of `types.ts` and `constants.ts`.
- `Seqs` and `Geometry` hold the array helpers and the math helpers at the top of the
  engine: `findIndex`, `splice`, `pop`, `isColliding`, `rectIntersect`, `clamp` and the
  distance tests.
- `Pesten` is the card game, as pure functions: `createDeck`, `startPesten`, `playCard`,
  `drawCard` and `npcTurnPesten`.
- `Inventory` covers the three weapon slots, the wheel, ammunition and healing, and what a
  loot pickup or a purchase does to the player.
- `Combat` holds what `damageNPC`, `damagePlayer`, `spawnLoot` and `attack` do to single
  records.
- `Movement` covers car physics, walking and the behaviour of fighting and wandering NPCs.
- `Projectiles` holds the sub-step arithmetic of projectiles and which ones survive a tick.
- `Interaction` is the decision order of `handleInteraction`.
- `Rules` and `Handlers` join these into one value, the `World`. They state the engine's
  invariant `WorldOk` on it, and give every part of `update` and every input handler as a
  function from world to world.
- `Engine` is the engine as it runs: a `Player` class for `playerRef.current`, and a `Game`
  class whose fields are the component's refs and state. Its methods do what the component
  does, in place: the loops over pools, projectiles, buildings and cars, `push`, `splice`
  and field updates. Each method is proved to end in exactly the world that the matching
  function of `Rules` or `Handlers` describes, and to keep `Valid()` (which is `WorldOk`).

Numbers are JavaScript doubles in the source. Positions, health, damage and money are
`real` here; ammo, cooldowns and timestamps are `int`. Randomness, trigonometry, the clock
and the mission service are supplied as parameters. "## Left out" lists each of these.

## Model

| member | source | states |
|---|---|---|
| Seqs.FindIndex | components/GameEngine.tsx:712 | -1 exactly when no element passes the test; otherwise the index of the first element that passes |
| Seqs.Remove | components/GameEngine.tsx:715 | `splice(i, 1)`: one element shorter, the others in their order, and the multiset loses exactly the removed element |
| Seqs.DropLast | components/GameEngine.tsx:572-574 | `pop()`: the remaining sequence followed by the popped element is the original, so no element is lost |
| Geometry.RectIntersectCommonPoint | components/GameEngine.tsx:32-42 | for rectangles of positive size, `rectIntersect` holds exactly when some point lies strictly inside both |
| Geometry.RectIntersectSymmetric | components/GameEngine.tsx:32-42 | the order of the two rectangles does not matter |
| Geometry.TouchingApart | components/GameEngine.tsx:32-42 | rectangles that only share an edge do not intersect |
| Geometry.IsColliding | components/GameEngine.tsx:23-30 | the test on centred boxes is the corner-based test on the same boxes |
| Geometry.CollidingSymmetric | components/GameEngine.tsx:23-30 | overlap is symmetric in its two boxes |
| Geometry.Clamp | components/GameEngine.tsx:21 | the result is at most `max`, at least `min` when `min <= max`, the value itself when in range, and the nearer bound otherwise |
| Inventory.StartInventoryOk | constants.ts:56-93 | the start inventory `[FISTS, null, null]` is well formed, and each of the four weapons holds ammo -1 if melee or at least one round if ranged |
| Inventory.ActiveWeapon | components/GameEngine.tsx:473 | the weapon in the active slot, or fists when that slot is empty |
| Inventory.Sign | components/GameEngine.tsx:380 | `Math.sign`: 1 exactly for positive deltas, -1 exactly for negative ones, otherwise 0 |
| Inventory.NextSlot | components/GameEngine.tsx:382-384 | the next slot stays in 0..2 and is the slot plus the direction, modulo 3 |
| Inventory.WheelRoundTrip | components/GameEngine.tsx:378-389 | one notch back undoes one notch forward and the reverse; three notches forward go full circle |
| Inventory.FreeSlot | components/GameEngine.tsx:725 | the first empty slot, or -1 exactly when all slots are full |
| Inventory.PlaceWeapon | components/GameEngine.tsx:740-741 | a new weapon goes into the first empty slot, and replaces the active slot's weapon when no slot is empty |
| Inventory.PlaceWeaponKeeps | components/GameEngine.tsx:740-741 | placing a weapon keeps the inventory well formed, puts the weapon in it, changes exactly one slot, and loses no weapon while a slot was free |
| Inventory.Fire | components/GameEngine.tsx:498-505 | a player's ranged shot takes one round from finite ammo and empties the slot at the last round; the other slots and infinite weapons are untouched |
| Inventory.ShotsUntilEmpty | components/GameEngine.tsx:498-505 | a weapon with `a` rounds fires exactly `a` shots: after `k < a` it holds `a - k`, after the `a`-th the slot is empty and attacks fall back to fists |
| Inventory.AmmoAdded | components/GameEngine.tsx:779 | every ranged weapon gains the rounds, every other slot is unchanged, and the inventory stays well formed |
| Inventory.Heal | components/GameEngine.tsx:721 | `Math.min(100, health + amount)`: never above 100, the plain sum when that fits, and positive health stays positive |
| Inventory.LootWeapon | components/GameEngine.tsx:729-731 | a weapon drop becomes a fresh pistol for 'pistol' and a bottle otherwise, and the weapon is well formed |
| Inventory.Pickup | components/GameEngine.tsx:717-747 | money adds its amount, health heals, a weapon is placed in a slot, misc sells for 5; the holdings stay well formed and cash and health never drop |
| Inventory.CataloguesOk | constants.ts:95-107 | every item of the dealer's, the car shop's and the bar's catalogue has a sound price, weapon, ammo count or heal |
| Inventory.Buy | components/GameEngine.tsx:768-797 | too little cash changes nothing; otherwise the price is paid and the weapon, ammo or heal is applied; the holdings stay well formed |
| Combat.DamageNpc | components/GameEngine.tsx:530-541 | health drops by exactly the amount; a survivor fights the player, a victim is dead; nothing else in the record changes |
| Combat.SpawnLoot | components/GameEngine.tsx:442-469 | the drop lies where the NPC died and is one of the four well-formed kinds |
| Combat.DigitsValue | components/GameEngine.tsx:462 | the money drop's name prints the amount as its decimal numeral: it reads back as the amount and has no leading zero |
| Combat.SpawnLootTable | components/GameEngine.tsx:442-469 | the drop table: pistol or bottle above 0.8, a named misc item worth 15 above 0.6, a kebab healing 25 above 0.4, else a whole amount of money from 10 to 49, named after itself |
| Combat.KillReward | components/GameEngine.tsx:543-548 | a death pays the reward of a current kill mission, and nothing otherwise |
| Combat.AfterKill | components/GameEngine.tsx:543-548 | a death marks a current kill mission completed and leaves other missions alone |
| Combat.KillCreditRepeats | components/GameEngine.tsx:543-548 | completing is idempotent and does not stop payment: two deaths under one kill mission pay twice its reward |
| Combat.Swing | components/GameEngine.tsx:516-521 | a melee swing applies `DamageNpc` to exactly the live NPCs whose box overlaps the hit box |
| Combat.SwingEffect | components/GameEngine.tsx:516-521 | a swing keeps the NPCs well formed, never touches the dead, never raises health, and changes nothing when nobody is hit |
| Combat.Drops | components/GameEngine.tsx:540 | the loot a swing drops is at most one item per NPC and always well formed |
| Combat.DropsAtKills | components/GameEngine.tsx:540 | every drop is the `SpawnLoot` of an NPC this swing killed, at its position; a swing that kills nobody drops nothing |
| Combat.Shot | components/GameEngine.tsx:485-497 | the projectile starts 20 ahead along the aim, flies the spread heading, at 35 for a pistol or AK-47 and 15 for any other weapon, with the weapon's damage and range, and has not travelled yet |
| Movement.Throttle | components/GameEngine.tsx:813-815 | the speed after throttle and friction stays within the top speed, decays when no pedal is held, and rises or falls with the pedal held |
| Movement.Bounce | components/GameEngine.tsx:853 | a collision reverses the car's direction and halves its speed bound |
| Movement.Steer | components/GameEngine.tsx:816-821 | no turn at 0.1 or below, 0.04 per key at higher speed, mirrored in reverse, and both keys cancel |
| Movement.Drive | components/GameEngine.tsx:810-857 | the car throttles, steers, then either moves to the candidate position or stays put and bounces on a collision; it never moves outside the 50 fence and stays within the top speed |
| Movement.SpeedStaysBelowMax | components/GameEngine.tsx:813-815 | no tick takes a car past 9.8, below every car's `maxSpeed` |
| Movement.Walk | components/GameEngine.tsx:862-887 | with no direction held the player stays; otherwise the whole step is taken or refused, and a taken step ends outside the fence and every building |
| Movement.Chase | components/GameEngine.tsx:940-951 | a fighting NPC turns to the supplied facing angle and steps 2 along the supplied heading only when farther than 150 from the player, never into a building, and changes nothing else |
| Movement.ChaseApproaches | components/GameEngine.tsx:941-949 | when the heading is the unit vector toward the player (`Toward`, what cosine and sine of the `atan2` angle give), a chase never increases the distance, and a moving NPC goes from distance k > 150 to exactly k - 2 |
| Movement.Wander | components/GameEngine.tsx:955-981 | a wandering NPC steps 0.5 or stays and turns: by pi plus pi/2 past the world's edge, by pi/2 at a building |
| Movement.NpcMove | components/GameEngine.tsx:936-982 | the dead, and everyone indoors, stand still; fighters chase, wanderers wander; a move never ends in a building |
| Movement.PoolMoved | components/GameEngine.tsx:936-982 | every NPC of the pool makes its own move |
| Movement.PoolMovedKeepsOk | components/GameEngine.tsx:936-982 | moving neither heals, hurts nor changes the state of any NPC |
| Pesten.SuitIndex | components/GameEngine.tsx:46 | the suit's place in the suit order |
| Pesten.RankIndex | components/GameEngine.tsx:47 | the rank's place in the rank order |
| Pesten.CardAt | components/GameEngine.tsx:49 | the k-th card pushed is a valid card at position k |
| Pesten.CardAtIndex | components/GameEngine.tsx:49 | every valid card is among the 52 pushed, at its own position |
| Pesten.DeckPrefixCount | components/GameEngine.tsx:49 | the first `k` cards pushed hold each valid card before position `k` once and nothing else |
| Pesten.CreateDeckExact | components/GameEngine.tsx:45-51 | the deck holds 52 cards: every suit-rank card exactly once, and no other |
| Pesten.ShuffleExact | components/GameEngine.tsx:50 | any shuffle of the deck holds 52 distinct valid cards, and every valid card is in it |
| Pesten.StartPesten | components/GameEngine.tsx:570-585 | the game opens on the player's turn with 3 cards each, one on the discard pile (the 46th card), the first 45 as the deck, and 96 moves at most |
| Pesten.StartKeepsCards | components/GameEngine.tsx:570-585 | the deal neither loses nor invents a card: all 52 are in the hands, the pile and the deck |
| Pesten.DrawCard | components/GameEngine.tsx:610-624 | an empty deck ends the game; otherwise the top card of the deck goes to that side's hand and the turn passes |
| Pesten.PlayCard | components/GameEngine.tsx:587-608 | nothing off the player's turn; a matching card leaves the hand for the pile and the NPC is on; a card that does not match draws |
| Pesten.NpcTurnPlaysFirst | components/GameEngine.tsx:629-640 | with a matching card in hand the NPC plays the first one: it leaves the hand and goes on the pile, which is otherwise unchanged, and the turn passes to the player unless that emptied the hand |
| Pesten.NpcTurn | components/GameEngine.tsx:626-648 | a turn that comes due while the game is stopped changes nothing, and the NPC never touches the player's hand |
| Pesten.NpcTurnDraws | components/GameEngine.tsx:630-646 | with no matching card the NPC draws the deck's last card and passes the turn, and on an empty deck the game ends with nothing else changed |
| Pesten.CardsConserved | components/GameEngine.tsx:587-648 | no move creates or loses a card |
| Pesten.MoveProgress | components/GameEngine.tsx:587-648 | every move changes nothing, ends the game, or lowers the move bound; the deck never grows |
| Pesten.StartIsDealt | components/GameEngine.tsx:570-585 | a fresh deal satisfies the card-game invariant |
| Pesten.MovePreservesDealt | components/GameEngine.tsx:587-648 | once dealt, the game stays dealt through every move |
| Projectiles.SubStep | components/GameEngine.tsx:905-907 | a sub-step moves a quarter of the speed along the heading and adds it to the distance; nothing else changes |
| Projectiles.Advanced | components/GameEngine.tsx:904-930 | sub-steps change only the position and the distance travelled |
| Projectiles.AdvancedExact | components/GameEngine.tsx:904-930 | after `s` sub-steps the projectile has moved and travelled exactly `s` quarters of its speed |
| Projectiles.AdvancedCompose | components/GameEngine.tsx:904-930 | `t` sub-steps after `s` are `s + t` from the start |
| Projectiles.FullTicks | components/GameEngine.tsx:900-907 | a tick without a hit moves the projectile by its whole speed, and `t` ticks add `t` times the speed |
| Projectiles.Kept | components/GameEngine.tsx:932 | a projectile is kept exactly when it hit nothing and is still within range, and then it is the one moved four sub-steps |
| Projectiles.Survivors | components/GameEngine.tsx:932 | the survivors never outnumber the projectiles |
| Projectiles.SurvivorsSound | components/GameEngine.tsx:932 | every survivor is within range and is some projectile that hit nothing, moved on its four sub-steps |
| Projectiles.SurvivorsSplice | components/GameEngine.tsx:896-933 | splicing projectile `i` after the ones behind it have been handled gives the survivors of the list from `i` on |
| Projectiles.RangeEndsFlight | components/GameEngine.tsx:932 | a projectile that keeps missing is gone once it has flown past its range |
| Interaction.Dispatch | components/GameEngine.tsx:650-766 | for each action, the exact conditions under which `handleInteraction` takes it, in its priority order, with the first door, loot item or car in reach |
| Interaction.DoorBeatsCar | components/GameEngine.tsx:692-703 | a driver at a door walks in, car and all, by the first door in reach |
| Interaction.Interior | components/GameEngine.tsx:696 | a cafe opens the cafe, a car dealer the dealer's room, anything else a house |
| Interaction.SpawnNotInExit | components/GameEngine.tsx:698-699 | entering puts the player outside the exit zone, so a second E does not leave at once |
| Interaction.ExitSpot | components/GameEngine.tsx:661-676 | leaving goes below the door of the building entered, else below the first building of the interior's kind (none when there is none), else the world's centre for a house |
| Interaction.EnterThenLeave | components/GameEngine.tsx:661-666 | the exit of a building entered is 50 below its door |
| Rules.WithPool | components/GameEngine.tsx:805 | writing one NPC pool back changes that pool and nothing else |
| Rules.HitNpc | components/GameEngine.tsx:530-550 | the hit NPC is damaged; a kill also drops its loot, pays the kill reward and completes a kill mission; a survivor changes nothing else |
| Rules.StrikePool | components/GameEngine.tsx:517-521 | striking the first `k` NPCs one by one leaves the pool a swing over them leaves |
| Rules.StrikeLoot | components/GameEngine.tsx:517-521 | the loot gains exactly the drops of the NPCs killed, in pool order |
| Rules.StrikePays | components/GameEngine.tsx:543-548 | every kill pays the reward of the mission the strike started with |
| Rules.EarnedIsProduct | components/GameEngine.tsx:543-548 | `k` kills under a mission pay `k` times its kill reward |
| Rules.Strike | components/GameEngine.tsx:516-521 | a strike is the swing on the pool plus its drops and pay, and changes nothing when nobody is hit |
| Rules.StaleStrike | components/GameEngine.tsx:799-1020 | the swing as the stale frame callback runs it: the kill credit goes by the mission the callback captured |
| Rules.StaleStrikeMissesNewMission | components/GameEngine.tsx:361 | a kill mission started after the callback was made pays nothing for a frame kill, where the intended swing pays |
| Rules.StaleStrikeKeepsPaying | components/GameEngine.tsx:547 | a cleared kill mission keeps paying for frame kills, where the intended swing pays nothing |
| Rules.StrikeKeepsOk | components/GameEngine.tsx:516-521 | a strike keeps the NPCs, the loot and the mission well formed |
| Rules.StrikeInKeepsOk | components/GameEngine.tsx:516-521 | a strike written back keeps the engine's invariant |
| Rules.Hurt | components/GameEngine.tsx:552-558 | health drops by the amount; at zero or below the screen is WASTED, otherwise it is unchanged |
| Rules.HurtPlayerKeepsOk | components/GameEngine.tsx:552-558 | hurting the player keeps the engine's invariant |
| Rules.HurtPlayer | components/GameEngine.tsx:552-558 | `damagePlayer` lowers health by the amount and turns the screen to WASTED at zero or below; nothing else changes |
| Rules.PlayerAttack | components/GameEngine.tsx:471-528 | within the cooldown nothing happens; otherwise the attack time is set, and a ranged weapon fires and spends ammo while a melee weapon strikes the pool in reach |
| Rules.PlayerAttackEffects | components/GameEngine.tsx:471-528 | a shot touches only the projectiles and the inventory; a swing touches only the pool in reach, the loot, the cash and the mission |
| Rules.PlayerAttackKeepsOk | components/GameEngine.tsx:471-528 | the player's attack keeps the engine's invariant |
| Rules.NpcAttack | components/GameEngine.tsx:485-527 | a ranged NPC fires without spending ammo; a melee NPC hurts the player only when its hit box overlaps them |
| Rules.NpcStepAt | components/GameEngine.tsx:936-982 | the NPC makes its move, and only an attacking NPC fires or hurts |
| Rules.NpcStepKeepsOk | components/GameEngine.tsx:936-982 | one NPC's turn keeps the NPCs, the projectiles and the player's vitals well formed |
| Rules.TickPool | components/GameEngine.tsx:936-982 | after the loop each NPC has made exactly its own move |
| Rules.TickUpTo | components/GameEngine.tsx:936-982 | the NPCs not yet reached are untouched; over the loop the projectiles only grow by the shots fired, health never rises and the NPCs, projectiles and vitals stay well formed |
| Rules.TickIndoors | components/GameEngine.tsx:937-955 | indoors the NPC loop changes nothing at all |
| Rules.TickKeepsOk | components/GameEngine.tsx:935-982 | after the NPC loop every NPC has made its move and no other pool, loot, car or weapon has changed; the invariant holds |
| Rules.Tick | components/GameEngine.tsx:936-982 | the NPC loop never changes the interior, the shop, the card game or the building last entered |
| Rules.SubStepAt | components/GameEngine.tsx:905-927 | one sub-step advances the shot; a building outdoors stops it; the player's shots hurt only NPCs and NPC shots only the player |
| Rules.Fly | components/GameEngine.tsx:904-930 | at most four sub-steps, stopping at the first hit; a shot that flew them all hit nothing and changed nothing |
| Rules.FlyStops | components/GameEngine.tsx:929 | a flight that has hit stays as it is however many more sub-steps it is given |
| Rules.StepShot | components/GameEngine.tsx:896-933 | projectile `j` flies, then is kept moved or removed in place; the others stay |
| Rules.StepShotKeepsOk | components/GameEngine.tsx:896-933 | one projectile's turn keeps the projectiles and the fight well formed |
| Rules.ShotsFrom | components/GameEngine.tsx:896-933 | the loop from the last projectile down to `i` leaves those before `i` untouched |
| Rules.ShotsFromSurvivors | components/GameEngine.tsx:896-933 | the loop in closed form: those before `i` are untouched, and from `i` on the survivors remain, in order |
| Rules.NpcShotsSpareNpcs | components/GameEngine.tsx:916-926 | with no player projectile in flight no NPC is hurt and no loot or pay appears |
| Rules.ShootKeepsOk | components/GameEngine.tsx:896-933 | after the projectile loop the invariant holds, no other pool, car or weapon has changed, and the player has not moved or healed |
| Rules.Shoot | components/GameEngine.tsx:896-933 | the projectile loop never changes the interior, the shop, the card game or the building last entered |
| Rules.ShootSurvivors | components/GameEngine.tsx:932 | the projectiles left after the loop are exactly the survivors, in order |
| Handlers.OwnCar | components/GameEngine.tsx:811 | the first car with the player's car id, or -1 exactly when there is none |
| Handlers.MovePlayer | components/GameEngine.tsx:810-893 | while driving the interior and weapons stay; on foot the cars stay |
| Handlers.MovePlayerEffect | components/GameEngine.tsx:810-893 | driving moves exactly the player's own car and seats the player on it; walking moves the player by `Walk`, turns them to the mouse, touches no car, and with the button down is followed by `PlayerAttack` from the new spot |
| Handlers.MovePlayerKeepsOk | components/GameEngine.tsx:810-893 | the player part of a frame keeps the invariant |
| Handlers.Update | components/GameEngine.tsx:800-801 | off the PLAYING screen, or with a shop or the card game open, a frame changes nothing |
| Handlers.UpdateKeepsOk | components/GameEngine.tsx:799-982 | a frame keeps the invariant and never changes the interior, the shop, the card game or the building last entered |
| Handlers.CarsOkAfterUpdate | components/GameEngine.tsx:750-765 | replacing one car by one within the speed bound keeps all cars within it |
| Handlers.LootOkAfterRemove | components/GameEngine.tsx:715 | removing an item keeps the remaining loot well formed |
| Handlers.DealKeepsOk | components/GameEngine.tsx:683 | dealing a new card game keeps the invariant |
| Handlers.PerformKeepsOk | components/GameEngine.tsx:650-766 | every interaction action keeps the invariant |
| Handlers.Perform | components/GameEngine.tsx:650-766 | no action fights or adds a car; waiting actions change nothing; only the shop actions open a shop and only the card player deals |
| Handlers.InteractKeepsOk | components/GameEngine.tsx:650-766 | `handleInteraction` keeps the invariant |
| Handlers.Interact | components/GameEngine.tsx:650-766 | `handleInteraction` never touches the NPCs, the projectiles, the mission, the screen, the number of cars or the slots, and does nothing while the card game is open |
| Handlers.InteractPicksUp | components/GameEngine.tsx:712-747 | a pickup removes exactly that item and applies `Pickup`; the cars, NPCs, interior and position stay |
| Handlers.EnterLeaveRoundTrip | components/GameEngine.tsx:657-703 | entering a building and pressing E in the exit zone puts the player 50 below that building's door, outdoors |
| Handlers.CarEnterThenExit | components/GameEngine.tsx:750-765 | taking a car and pressing E again leaves it driverless, with the player on foot 40 to its right, at rest |
| Handlers.BoughtCar | components/GameEngine.tsx:782-791 | a bought car waits at rest at (1250, 1400), with no driver, the brand bought, and `maxSpeed` 14 for a hybrid and 12 otherwise |
| Handlers.Purchase | components/GameEngine.tsx:768-797 | the holdings change by `Buy`; an affordable car is added outside the dealer; too little cash changes nothing |
| Handlers.PurchaseKeepsOk | components/GameEngine.tsx:768-797 | a purchase keeps the invariant, never lowers health, and costs exactly the price when it succeeds |
| Handlers.Wheel | components/GameEngine.tsx:378-389 | off the PLAYING screen or during the card game nothing changes; otherwise the slot moves by one notch, wrapping |
| Handlers.WheelBackAndForth | components/GameEngine.tsx:378-389 | scrolling one way then the other returns the same world, and the invariant holds |
| Handlers.StartSpot | components/GameEngine.tsx:409-412 | 60 below the door of the first building with id "cafe", or (2950, 3100) when there is none |
| Handlers.Reset | components/GameEngine.tsx:408-430 | full health, on foot at the start spot with fists only, every street NPC revived, outdoors, no shop or card game, PLAYING; cash, cars, loot, projectiles and mission stay |
| Handlers.Revived | components/GameEngine.tsx:419-423 | a revived NPC wanders at 50 health with no target, otherwise as it was, and is well formed |
| Handlers.ResetKeepsOk | components/GameEngine.tsx:408-430 | a reset keeps the invariant |
| Handlers.ResetIdempotent | components/GameEngine.tsx:408-430 | resetting twice is resetting once |
| Handlers.PressE | components/GameEngine.tsx:359-360 | nothing during the card game; an open shop closes; off the PLAYING screen nothing happens; otherwise the interaction runs |
| Handlers.PressM | components/GameEngine.tsx:361 | while playing outdoors with no mission and no card game, the generated mission becomes current; otherwise nothing |
| Handlers.PressSpace | components/GameEngine.tsx:363 | on the WASTED screen with no card game open the game resets; otherwise nothing |
| Handlers.PressStart | components/GameEngine.tsx:1313 | START moves the menu to PLAYING and does nothing elsewhere |
| Handlers.ClickCard | components/GameEngine.tsx:1359 | a hand-card click plays the card; a play that empties the hand wins 20, any other leaves the player as they were |
| Handlers.PestenStepOk | components/GameEngine.tsx:587-648 | every move of the card game keeps its invariant |
| Handlers.ClickCardKeepsOk | components/GameEngine.tsx:597-600 | a card click keeps the invariant and a win only adds money |
| Handlers.ClickDrawKeepsOk | components/GameEngine.tsx:1361 | the PAK button keeps the invariant |
| Handlers.ClickDraw | components/GameEngine.tsx:1361 | PAK touches only the card game, keeps all its cards, ends it on an empty deck and otherwise gives the player one card and the NPC the turn |
| Handlers.NpcTurnDueKeepsOk | components/GameEngine.tsx:602 | the NPC's timed turn keeps the invariant |
| Handlers.NpcTurnDue | components/GameEngine.tsx:602 | the timed NPC turn touches only the card game, never the player's hand, and nothing once the game is stopped |
| Handlers.TimersKeepOk | components/GameEngine.tsx:547 | closing the card game and clearing the mission keep the invariant |
| Handlers.CloseCards | components/GameEngine.tsx:1363 | STOP and the win timer close the card game and change nothing else |
| Handlers.ClearMission | components/GameEngine.tsx:547 | the mission timer clears the mission and changes nothing else |
| Handlers.KeysKeepOk | components/GameEngine.tsx:354-364 | E and Space keep the invariant |
| Handlers.MenuKeysKeepOk | components/GameEngine.tsx:361 | M keeps the invariant for a mission with a non-negative reward |
| Handlers.StartKeepsOk | components/GameEngine.tsx:1313 | START keeps the invariant |
| Engine.Player.constructor | components/GameEngine.tsx:57-75 | the player starts at rest at the start position, on foot, with health 100, no cash and fists only |
| Engine.Initial | components/GameEngine.tsx:203-278 | a new game is on the menu, with no loot, projectiles or mission, and the player at full health with fists and no cash |
| Engine.InitialOk | components/GameEngine.tsx:203-314 | a freshly generated world satisfies the invariant |
| Engine.Game.constructor | components/GameEngine.tsx:291-344 | the component's refs and state start as the initial world, which is valid |
| Engine.Game.PoolAt | components/GameEngine.tsx:805 | the pool the identifier names |
| Engine.Game.SetPool | components/GameEngine.tsx:805 | writes that pool back and nothing else |
| Engine.Game.DamagePlayer | components/GameEngine.tsx:552-558 | in place, the world becomes the one `HurtPlayer` describes |
| Engine.Game.DamageNpc | components/GameEngine.tsx:530-550 | in place, the world becomes the one `HitNpc` describes |
| Engine.Game.StrikeAll | components/GameEngine.tsx:517-521 | the `forEach` over a pool ends in the world of `StrikeIn`, and reports whether any live NPC was in the box |
| Engine.Game.Attack | components/GameEngine.tsx:471-528 | in place, the world becomes the one `PlayerAttack` describes |
| Engine.Game.BuildingHit | components/GameEngine.tsx:834-838 | the building loop with its `break` finds exactly whether any building overlaps |
| Engine.Game.MoveNpc | components/GameEngine.tsx:936-982 | an NPC's movement equals `NpcMove` |
| Engine.Game.SubStepShot | components/GameEngine.tsx:905-927 | one sub-step, in place, as `SubStepAt` |
| Engine.Game.FlyShot | components/GameEngine.tsx:904-930 | the sub-step loop, in place, as `Fly` |
| Engine.Game.MoveProjectiles | components/GameEngine.tsx:896-933 | the projectile loop ends in the world of `Shoot` |
| Engine.Game.SpliceShot | components/GameEngine.tsx:897-932 | one projectile's turn, in place, as `StepShot` |
| Engine.Game.NpcTurn | components/GameEngine.tsx:937-953 | one NPC's turn, in place, as `NpcStepAt` |
| Engine.Game.TickNpcs | components/GameEngine.tsx:936-982 | the NPC loop ends in the world of `Tick` |
| Engine.Game.FindOwnCar | components/GameEngine.tsx:811 | the loop finds `OwnCar` |
| Engine.Game.OtherCarNear | components/GameEngine.tsx:843-849 | the loop with its `continue` and `break` finds exactly whether another car is near |
| Engine.Game.DriveCar | components/GameEngine.tsx:813-857 | one driven tick, by the engine's steps and loops, equals `Drive` |
| Engine.Game.WalkStep | components/GameEngine.tsx:862-886 | one walking tick, with the building loop, equals `Walk` |
| Engine.Game.MovePlayer | components/GameEngine.tsx:810-893 | the player part of a frame, in place, as `Handlers.MovePlayer` |
| Engine.Game.Update | components/GameEngine.tsx:799-982 | a frame, in place, as `Handlers.Update`, keeping the invariant |
| Engine.Game.FindDoor | components/GameEngine.tsx:692-703 | the first building whose door is within 40, or -1 exactly when there is none |
| Engine.Game.ChooseAction | components/GameEngine.tsx:650-766 | the engine's checks choose exactly the action `Dispatch` does |
| Engine.Game.ChooseIndoors | components/GameEngine.tsx:655-689 | the interior checks choose the action `Dispatch` does |
| Engine.Game.ChooseOutdoors | components/GameEngine.tsx:692-766 | the outdoor checks choose the action `Dispatch` does |
| Engine.Game.ChooseNearby | components/GameEngine.tsx:712-766 | the loot and car checks choose the action `Dispatch` does |
| Engine.Game.PickUpLoot | components/GameEngine.tsx:712-747 | the item leaves the ground by `splice` and the player's holdings change by `Pickup` |
| Engine.Game.Carry | components/GameEngine.tsx:650-766 | an action carried out in place ends in the world of `Perform` |
| Engine.Game.CarryIndoors | components/GameEngine.tsx:657-688 | the interior actions, in place, as `Perform` |
| Engine.Game.CarryOutdoors | components/GameEngine.tsx:681-766 | the card game and the outdoor actions, in place, as `Perform` |
| Engine.Game.Deal | components/GameEngine.tsx:570-585 | the card game opens with `StartPesten` and nothing else changes |
| Engine.Game.Leave | components/GameEngine.tsx:657-679 | leaving an interior, in place, as `Perform` |
| Engine.Game.Enter | components/GameEngine.tsx:695-701 | entering building `i`, in place, as `Perform` |
| Engine.Game.LeaveCar | components/GameEngine.tsx:750-756 | getting out of car `c`, in place, as `Perform` |
| Engine.Game.TakeCar | components/GameEngine.tsx:757-765 | getting into car `c`, in place, as `Perform` |
| Engine.Game.HandleInteraction | components/GameEngine.tsx:650-766 | `handleInteraction` ends in the world of `Interact` and keeps the invariant |
| Engine.Game.AddAmmo | components/GameEngine.tsx:779 | the `forEach` adds the rounds to every ranged weapon, as `AmmoAdded` |
| Engine.Game.BuyItem | components/GameEngine.tsx:768-797 | `buyItem` ends in the world of `Purchase` and keeps the invariant |
| Engine.Game.Deliver | components/GameEngine.tsx:770-791 | an affordable purchase changes the holdings by `Buy` and adds a bought car |
| Engine.Game.WheelTurn | components/GameEngine.tsx:378-389 | the wheel handler, in place, as `Wheel`, keeping the invariant |
| Engine.Game.ReviveAll | components/GameEngine.tsx:419-423 | every street NPC is revived, in pool order |
| Engine.Game.ResetGame | components/GameEngine.tsx:408-430 | `resetGame` ends in the world of `Reset` and keeps the invariant |
| Engine.Game.RespawnPlayer | components/GameEngine.tsx:410-415 | full health, at the spot, on foot, with fists in slot 0 |
| Engine.Game.ReopenWorld | components/GameEngine.tsx:425-428 | outdoors, no shop, the card game closed, PLAYING |
| Engine.Game.ClickCard | components/GameEngine.tsx:1359 | a card click, in place, as `Handlers.ClickCard`; money never drops |
| Engine.Game.ClickDraw | components/GameEngine.tsx:1361 | the PAK button, in place, as `ClickDraw` |
| Engine.Game.NpcCardTurn | components/GameEngine.tsx:602 | the NPC's timed turn, in place, as `NpcTurnDue` |
| Engine.Game.StopCards | components/GameEngine.tsx:1363 | the STOP button, in place, as `CloseCards` |
| Engine.Game.MissionTimeout | components/GameEngine.tsx:547 | the kill timer clears the mission, as `ClearMission` |
| Engine.Game.KeyE | components/GameEngine.tsx:359-360 | the E key, in place, as `PressE` |
| Engine.Game.KeyM | components/GameEngine.tsx:361 | the M key, in place, as `PressM` |
| Engine.Game.KeySpace | components/GameEngine.tsx:363 | the space bar, in place, as `PressSpace` |
| Engine.Game.Start | components/GameEngine.tsx:1313 | the START button, in place, as `PressStart` |

## Left out

- Rendering, the camera, the minimap, attack visuals, log messages, the interaction prompt
  and the card game's `message` text are display only and are not modelled.
- `handleTalk` and the dialogue service are not modelled. `startMission` is reduced to the
  mission it receives: `PressM` takes that mission as a parameter, and `missionLoading` is
  left out. `services/geminiService.ts` is not part of this model.
- World generation (buildings, cars and NPCs drawn at random) is not modelled. The
  generated world is a parameter of `Engine.Game.constructor` and `Engine.Initial`.
- `Math.random()` is a parameter wherever it is drawn:
  - the loot rolls `rolls`, one per NPC index;
  - the NPC choices `choices` (the 1% redirect, the 2% attack and the spread);
  - the spread heading of a shot;
  - the shuffled deck, which is any permutation of the ordered deck (`IsShuffle`).
  The shuffle itself (`sort` with a random comparator) is not modelled.
- `Math.cos`, `Math.sin`, `Math.atan2` and `Math.sqrt` are not computed.
  - Headings are supplied as unit vectors: the car's, the walking direction's, the mouse
    aim's and every NPC's.
  - Each distance test is a comparison of squared distances, which is exact for the non-negative
    radii the engine uses.
  - A projectile keeps the unit vector of its rotation instead of the angle.
- `Date.now()` is the `now` parameter. The random ids of projectiles, loot and bought cars
  are not modelled; a bought car's id is `car-bought-` followed by `now`.
- `setTimeout` callbacks become event methods, called whenever the timer would fire:
  `NpcCardTurn`, `StopCards` and `MissionTimeout`. Their delays and their interleaving with
  frames are not modelled.
- React's state batching and stale closures are not modelled in the engine: a handler reads
  the state current when it runs. The one stale read with a visible effect, the mission a
  frame's kills read, is recorded under "## Findings".
- `keysPressed` bookkeeping is left out. The held keys are an input of each frame.
- The shared `WEAPONS` objects are not modelled. Every weapon is a value, so the in-place
  `ammo` updates on an object that is also referenced elsewhere are not captured.
- `Interaction.Dispatch` is defined as a function. `Engine.Game.ChooseAction` is the method
  that makes the same choice with the engine's loops.
- `Pesten.NpcTurn`: its own contract covers the stopped game and the player's hand; the play
  and the draw are stated by `Pesten.NpcTurnPlaysFirst` and `Pesten.NpcTurnDraws`.
- Pesten.StartPesten: requires a 52-card deck, which `createDeck` always returns; its result
  is stated in closed form (who gets which of the popped cards).
- Engine.Game.KeyM: keeps `Valid()` only for a mission with a non-negative reward, because
  the mission service's reward is not constrained by the engine.
- Movement.Chase: nothing ties the supplied `facing` angle and `facingDir` heading to the
  player's position, since `atan2`, cosine and sine are not computed; that the heading points
  at the player is the hypothesis `Toward` of `Movement.ChaseApproaches`, not a promise of
  `Chase`.
- Rules.PlayerAttack, Rules.NpcAttack and Combat.Shot: the random spread of a
  shot is the supplied `shotDir`, so the contract does not state the ±0.025 radian bound.

Where the game's description of its behaviour and its code disagree, the model follows the
code:

- A wandering NPC that reaches the world's edge turns by pi and then by a further pi/2,
  because the collision turn also runs after the edge turn (`Movement.Wander`).
- E next to several cars takes the first car in the list within 60, not the nearest
  (`Interaction.Dispatch`).
- A misc loot item sells for 5, whatever its value of 15 (`Inventory.Pickup`).
- Kill credit looks at neither the mission's target nor its `completed` flag, so every death
  during a kill mission pays again (`Combat.KillCreditRepeats`).
- `resetGame` keeps the cash, the cars (and the driver of the car last driven), the loot,
  the projectiles and the mission. It revives only the street NPCs (`Handlers.Reset`).
- A car's `maxSpeed` is never read: friction keeps every car below 9.8
  (`Movement.SpeedStaysBelowMax`).
- In a house, the game loop runs the car seller's NPC pool. The player's melee reaches no
  one there, but projectiles do (`Rules.ActivePool`, `Rules.MeleePool`).
- The PAK button draws on either side's turn (`Handlers.ClickDraw`).
- A driver at a door enters the building still seated in the car, since the door rule
  comes before the car rule (`Interaction.DoorBeatsCar`).

## Findings

| source | as written | input that shows it | evidently intended | confidence | as-written member | corrected member |
|---|---|---|---|---|---|---|
| components/GameEngine.tsx:799-1020 | `update` is a `useCallback` whose dependencies leave out `currentMission`, so the kills it makes (the melee at line 892, the bullets at line 919) read the mission of the render that last re-created it | while playing outdoors, press M (line 361) and kill an NPC in melee before the screen, the interior, the shop or the card game changes: no reward is paid; after the mission timer clears a kill mission (line 547), further kills keep paying its reward | every kill reads the current mission, so a new kill mission pays and a cleared one does not | not executed; high, from the dependency list as written | Rules.StaleStrikeMissesNewMission | Rules.StrikePays |
